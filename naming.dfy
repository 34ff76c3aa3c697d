/** How resource names are derived from an API's operation catalog: every
    "Create<Name>" operation that is not a "CreateBatch..." operation, whose
    <Name> the pluralizer calls singular, contributes <Name>. Both
    generations apply this rule; `isSingular` stands for the pluralizer's
    IsSingular, which is not part of this model. */
module Naming {
  import opened GoStrings

  const CreatePrefix := "Create"
  const CreateBatchPrefix := "CreateBatch"

  /** The name without its "Create" prefix. */
  function Stripped(op: string): string {
    TrimPrefix(op, CreatePrefix)
  }

  /** `op` names one manageable resource. */
  predicate Qualifies(op: string, isSingular: string -> bool) {
    !HasPrefix(op, CreateBatchPrefix) && HasPrefix(op, CreatePrefix) && isSingular(Stripped(op))
  }

  /** What one operation contributes, tested in the order the code tests:
      the batch prefix first, then the create prefix, then singularity. */
  function Contribution(op: string, isSingular: string -> bool): (r: seq<string>)
    ensures r == (if Qualifies(op, isSingular) then [Stripped(op)] else [])
  {
    if HasPrefix(op, CreateBatchPrefix) then []
    else if HasPrefix(op, CreatePrefix) then
      var resName := TrimPrefix(op, CreatePrefix);
      if isSingular(resName) then [resName] else []
    else []
  }

  /** The resource names of an operation catalog, in catalog order. */
  function CrdNames(ops: seq<string>, isSingular: string -> bool): (names: seq<string>)
    ensures |names| <= |ops|
  {
    if ops == [] then [] else Contribution(ops[0], isSingular) + CrdNames(ops[1..], isSingular)
  }

  /** The names of a catalog are the names of its parts, in order; this is
      what lets a loop over the catalog append as it goes. */
  lemma {:induction false} CrdNamesAppend(a: seq<string>, b: seq<string>, isSingular: string -> bool)
    ensures CrdNames(a + b, isSingular) == CrdNames(a, isSingular) + CrdNames(b, isSingular)
    decreases |a|
  {
    if a == [] {
      assert a + b == b;
    } else {
      assert (a + b)[1..] == a[1..] + b;
      CrdNamesAppend(a[1..], b, isSingular);
    }
  }

  /** One step of a loop that appends names to `acc`: the names from
      position i on are what operation i contributes, then the names after
      it. */
  lemma CrdNamesStep(acc: seq<string>, ops: seq<string>, i: nat, isSingular: string -> bool)
    requires i < |ops|
    ensures acc + CrdNames(ops[i..], isSingular)
         == (acc + Contribution(ops[i], isSingular)) + CrdNames(ops[i + 1..], isSingular)
  {
    assert ops[i..][0] == ops[i] && ops[i..][1..] == ops[i + 1..];
    var c := Contribution(ops[i], isSingular);
    var later := CrdNames(ops[i + 1..], isSingular);
    assert acc + (c + later) == (acc + c) + later;
  }

  /** Every index moved one place on. */
  function Shifted(idx: seq<nat>): (r: seq<nat>)
    ensures |r| == |idx| && forall k :: 0 <= k < |idx| ==> r[k] == idx[k] + 1
  {
    seq(|idx|, k requires 0 <= k < |idx| => idx[k] + 1)
  }

  /** The catalog positions of the qualifying operations, in order. */
  function Positions(ops: seq<string>, isSingular: string -> bool): seq<nat> {
    if ops == [] then []
    else (if Qualifies(ops[0], isSingular) then [0] else []) + Shifted(Positions(ops[1..], isSingular))
  }

  /** The k-th name is the stripped operation at the k-th position, and
      that operation qualifies. */
  lemma {:induction false} PositionsPick(ops: seq<string>, isSingular: string -> bool)
    ensures |Positions(ops, isSingular)| == |CrdNames(ops, isSingular)|
    ensures forall k :: 0 <= k < |Positions(ops, isSingular)| ==>
      Positions(ops, isSingular)[k] < |ops| && Qualifies(ops[Positions(ops, isSingular)[k]], isSingular)
      && CrdNames(ops, isSingular)[k] == Stripped(ops[Positions(ops, isSingular)[k]])
  {
    if ops != [] {
      var tailOps := ops[1..];
      PositionsPick(tailOps, isSingular);
      var rest, tail := Positions(tailOps, isSingular), CrdNames(tailOps, isSingular);
      var idx, names := Positions(ops, isSingular), CrdNames(ops, isSingular);
      var lead: seq<nat> := if Qualifies(ops[0], isSingular) then [0] else [];
      assert idx == lead + Shifted(rest);
      assert names == Contribution(ops[0], isSingular) + tail;
      forall k | |lead| <= k < |idx|
        ensures idx[k] < |ops| && Qualifies(ops[idx[k]], isSingular) && names[k] == Stripped(ops[idx[k]])
      {
        assert idx[k] == rest[k - |lead|] + 1;
        assert ops[idx[k]] == tailOps[rest[k - |lead|]];
      }
    }
  }

  lemma {:induction false} PositionsIncrease(ops: seq<string>, isSingular: string -> bool)
    ensures forall k, l :: 0 <= k < l < |Positions(ops, isSingular)| ==>
      Positions(ops, isSingular)[k] < Positions(ops, isSingular)[l]
  {
    if ops != [] {
      PositionsIncrease(ops[1..], isSingular);
    }
  }

  lemma {:induction false} PositionsComplete(ops: seq<string>, isSingular: string -> bool)
    ensures forall i :: 0 <= i < |ops| && Qualifies(ops[i], isSingular) ==> i in Positions(ops, isSingular)
  {
    if ops != [] {
      var tailOps := ops[1..];
      PositionsComplete(tailOps, isSingular);
      var rest := Positions(tailOps, isSingular);
      var lead: seq<nat> := if Qualifies(ops[0], isSingular) then [0] else [];
      var idx := Positions(ops, isSingular);
      assert idx == lead + Shifted(rest);
      forall i | 0 <= i < |ops| && Qualifies(ops[i], isSingular) ensures i in idx {
        if i > 0 {
          assert Qualifies(tailOps[i - 1], isSingular);
          var k :| 0 <= k < |rest| && rest[k] == i - 1;
          assert idx[|lead| + k] == i;
        }
      }
    }
  }

  /** The names are exactly the stripped qualifying operations, in catalog
      order: `idx` picks, in increasing order, the catalog position each
      name comes from, and every qualifying position is picked. */
  lemma CrdNamesSelect(ops: seq<string>, isSingular: string -> bool) returns (idx: seq<nat>)
    ensures |idx| == |CrdNames(ops, isSingular)|
    ensures forall k :: 0 <= k < |idx| ==> idx[k] < |ops| && Qualifies(ops[idx[k]], isSingular)
    ensures forall k :: 0 <= k < |idx| ==> CrdNames(ops, isSingular)[k] == Stripped(ops[idx[k]])
    ensures forall k, l :: 0 <= k < l < |idx| ==> idx[k] < idx[l]
    ensures forall i :: 0 <= i < |ops| && Qualifies(ops[i], isSingular) ==> i in idx
  {
    idx := Positions(ops, isSingular);
    PositionsPick(ops, isSingular);
    PositionsIncrease(ops, isSingular);
    PositionsComplete(ops, isSingular);
  }

  /** Every name comes from a qualifying operation: it starts with "Create",
      not with "CreateBatch", and what follows "Create" is singular. */
  lemma CrdNamesSound(ops: seq<string>, isSingular: string -> bool, name: string)
    requires name in CrdNames(ops, isSingular)
    ensures exists op :: op in ops && Qualifies(op, isSingular) && op == CreatePrefix + name
    ensures isSingular(name)
  {
    var idx := CrdNamesSelect(ops, isSingular);
    var k :| 0 <= k < |CrdNames(ops, isSingular)| && CrdNames(ops, isSingular)[k] == name;
    var op := ops[idx[k]];
    assert op == CreatePrefix + name;
  }

  /** An operation that starts with "CreateBatch" or does not start with
      "Create" contributes nothing wherever it stands in the catalog. */
  lemma {:induction false} CrdNamesSkip(a: seq<string>, op: string, b: seq<string>, isSingular: string -> bool)
    requires HasPrefix(op, CreateBatchPrefix) || !HasPrefix(op, CreatePrefix)
    ensures CrdNames(a + [op] + b, isSingular) == CrdNames(a, isSingular) + CrdNames(b, isSingular)
  {
    var front := a + [op];
    CrdNamesAppend(front, b, isSingular);
    CrdNamesAppend(a, [op], isSingular);
    SkippedAlone(op, isSingular);
    assert CrdNames(front, isSingular) == CrdNames(a, isSingular);
  }

  lemma SkippedAlone(op: string, isSingular: string -> bool)
    requires HasPrefix(op, CreateBatchPrefix) || !HasPrefix(op, CreatePrefix)
    ensures CrdNames([op], isSingular) == []
  {
    assert [op][1..] == [];
    assert !Qualifies(op, isSingular);
  }

  /** A catalog with one singular creation, one batch creation, one plural
      creation and one non-creation yields the singular creation alone. */
  lemma CrdNamesExample(isSingular: string -> bool)
    requires isSingular("Widget") && !isSingular("Things")
    ensures CrdNames(["CreateWidget", "CreateBatchWidgets", "CreateThings", "DescribeWidget"], isSingular) == ["Widget"]
  {
    var ops := ["CreateWidget", "CreateBatchWidgets", "CreateThings", "DescribeWidget"];
    assert ops[0][6] != CreateBatchPrefix[6];
    assert Stripped(ops[0]) == "Widget";
    assert HasPrefix(ops[1], CreateBatchPrefix);
    assert ops[2][6] != CreateBatchPrefix[6];
    assert Stripped(ops[2]) == "Things";
    assert ops[3][0] != CreatePrefix[0];
    assert ops[1..][1..][1..][1..] == [];
  }
}
