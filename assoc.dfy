/** Filling a Go map of strings from a list of key/value pairs, one assignment at a
    time: a later pair overwrites an earlier one with the same key. */
module Assoc {

  /** The map left by assigning the pairs of `ps` in order. */
  function Assign(ps: seq<(string, string)>): map<string, string>
    decreases |ps|
  {
    if |ps| == 0 then map[]
    else Assign(ps[..|ps| - 1])[ps[|ps| - 1].0 := ps[|ps| - 1].1]
  }

  /** Position `i` holds the last pair of `ps` with key `k`. */
  predicate LastFor(ps: seq<(string, string)>, k: string, i: int)
  {
    0 <= i < |ps| && ps[i].0 == k && forall j :: i < j < |ps| ==> ps[j].0 != k
  }

  /** A key is in the map exactly when some pair has it, and it maps to the
      value of the last such pair. */
  lemma {:induction false} AssignLast(ps: seq<(string, string)>, k: string)
    ensures k in Assign(ps) <==> exists i :: 0 <= i < |ps| && ps[i].0 == k
    ensures forall i :: LastFor(ps, k, i) ==> Assign(ps)[k] == ps[i].1
  {
    AssignKeys(ps, k);
    forall i | LastFor(ps, k, i)
      ensures Assign(ps)[k] == ps[i].1
    {
      AssignValue(ps, k, i);
    }
  }

  /** The keys of the map are the keys of the pairs. */
  lemma {:induction false} AssignKeys(ps: seq<(string, string)>, k: string)
    ensures k in Assign(ps) <==> exists i :: 0 <= i < |ps| && ps[i].0 == k
    decreases |ps|
  {
    if |ps| > 0 {
      var init := ps[..|ps| - 1];
      AssignKeys(init, k);
      if ps[|ps| - 1].0 == k {
        assert k in Assign(ps);
      } else {
        if k in Assign(ps) {
          var i :| 0 <= i < |init| && init[i].0 == k;
          assert ps[i] == init[i];
        }
        if exists i :: 0 <= i < |ps| && ps[i].0 == k {
          var i :| 0 <= i < |ps| && ps[i].0 == k;
          assert init[i] == ps[i];
        }
      }
    }
  }

  /** The last pair with a key decides its value. */
  lemma {:induction false} AssignValue(ps: seq<(string, string)>, k: string, i: int)
    requires LastFor(ps, k, i)
    ensures k in Assign(ps) && Assign(ps)[k] == ps[i].1
    decreases |ps|
  {
    var init := ps[..|ps| - 1];
    if i < |ps| - 1 {
      assert ps[|ps| - 1].0 != k;
      assert init[i] == ps[i];
      assert LastFor(init, k, i) by {
        forall j | i < j < |init| ensures init[j].0 != k {
          assert init[j] == ps[j];
        }
      }
      AssignValue(init, k, i);
    }
  }

  /** Assigning one more pair extends the map. */
  lemma {:induction false} AssignSnoc(ps: seq<(string, string)>, k: string, v: string)
    ensures Assign(ps + [(k, v)]) == Assign(ps)[k := v]
  {
    assert (ps + [(k, v)])[..|ps|] == ps;
  }
}
