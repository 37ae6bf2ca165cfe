/**
 * A map built by a sequence of optional assignments applied in order,
 * as Go code builds one with `m[key] = value` inside a loop: a later
 * assignment to a key overwrites an earlier one.
 */
module Assignments {
  import opened Wrappers

  /** The map written by the first `n` assignments. */
  function Written<V>(ops: seq<Option<(string, V)>>, n: nat): map<string, V>
    requires n <= |ops|
  {
    if n == 0 then map[]
    else
      var m := Written(ops, n - 1);
      if ops[n - 1].Some? then m[ops[n - 1].value.0 := ops[n - 1].value.1] else m
  }

  /** Assignment `j` writes key `k`. */
  predicate Writes<V>(ops: seq<Option<(string, V)>>, j: nat, k: string)
    requires j < |ops|
  {
    ops[j].Some? && ops[j].value.0 == k
  }

  /** A key is in the map exactly when some assignment writes it. */
  lemma {:induction false} WrittenKey<V>(ops: seq<Option<(string, V)>>, n: nat, k: string)
    requires n <= |ops|
    ensures k in Written(ops, n) <==> exists j :: 0 <= j < n && Writes(ops, j, k)
  {
    if n > 0 {
      WrittenKey(ops, n - 1, k);
      if Writes(ops, n - 1, k) {
        assert k in Written(ops, n);
      } else {
        assert (k in Written(ops, n) <==> k in Written(ops, n - 1));
      }
    }
  }

  /** A key's value is the one its last assignment wrote. */
  lemma {:induction false} WrittenLast<V>(ops: seq<Option<(string, V)>>, n: nat, k: string)
    requires n <= |ops| && k in Written(ops, n)
    ensures exists j :: (0 <= j < n && Writes(ops, j, k) && Written(ops, n)[k] == ops[j].value.1 &&
      forall j' :: j < j' < n ==> !Writes(ops, j', k))
  {
    assert n > 0;
    var m := n - 1;
    if !Writes(ops, m, k) {
      WrittenLast(ops, m, k);
      var j :| (0 <= j < m && Writes(ops, j, k) && Written(ops, m)[k] == ops[j].value.1 &&
        forall j' :: j < j' < m ==> !Writes(ops, j', k));
      assert forall j' :: j < j' < n ==> !Writes(ops, j', k);
    } else {
      assert Written(ops, n)[k] == ops[m].value.1;
    }
  }
}
