/** Sequences of upserts on an abstract map. */
module Histories {

  function Upserts(m: map<nat, nat>, ops: seq<(nat, nat)>): map<nat, nat> {
    if ops == [] then m else Upserts(m, ops[..|ops| - 1])[ops[|ops| - 1].0 := ops[|ops| - 1].1]
  }

  lemma UpsertsStep(m: map<nat, nat>, ops: seq<(nat, nat)>, i: nat)
    requires i < |ops|
    ensures Upserts(m, ops[..i + 1]) == Upserts(m, ops[..i])[ops[i].0 := ops[i].1]
  {
    assert ops[..i + 1][..i] == ops[..i];
  }

  /** The value of a key after a sequence of upserts is the one written last, or the old one. */
  lemma {:induction false} UpsertsKeepLast(m: map<nat, nat>, ops: seq<(nat, nat)>, k: nat, i: nat)
    requires i <= |ops| && (i > 0 ==> ops[i - 1].0 == k) && forall j :: i <= j < |ops| ==> ops[j].0 != k
    ensures i > 0 ==> k in Upserts(m, ops) && Upserts(m, ops)[k] == ops[i - 1].1
    ensures i == 0 ==> (k in Upserts(m, ops) <==> k in m) && (k in m ==> Upserts(m, ops)[k] == m[k])
  {
    if i < |ops| {
      UpsertsKeepLast(m, ops[..|ops| - 1], k, i);
    }
  }

  lemma {:induction false} UpsertsSize(m: map<nat, nat>, ops: seq<(nat, nat)>)
    ensures |Upserts(m, ops)| <= |m| + |ops|
  {
    if ops != [] {
      var before := Upserts(m, ops[..|ops| - 1]);
      UpsertsSize(m, ops[..|ops| - 1]);
      assert before[ops[|ops| - 1].0 := ops[|ops| - 1].1].Keys == before.Keys + {ops[|ops| - 1].0};
    }
  }
}
