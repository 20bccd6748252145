/** The client's alert reducer: the alert list in the Redux store, grown by
    SET_ALERT and shrunk by REMOVE_ALERT. */
module AlertReducer {
  import opened Wrappers

  datatype Alert = Alert(id: string, msg: string, alertType: string)

  /** The actions the reducer sees; `Other` stands for every action type
      besides SET_ALERT and REMOVE_ALERT. */
  datatype Action = SetAlert(payload: Alert) | RemoveAlert(id: string) | Other(kind: string)

  const InitialState: seq<Alert> := []

  /** `state.filter(alert => alert.id !== id)` */
  function Without(state: seq<Alert>, id: string): (r: seq<Alert>)
    ensures |r| <= |state|
    ensures forall i :: 0 <= i < |r| ==> r[i].id != id
  {
    if state == [] then []
    else (if state[0].id != id then [state[0]] else []) + Without(state[1..], id)
  }

  /** The reducer: append on SET_ALERT, drop every alert with the id on
      REMOVE_ALERT, and hand back the state for any other action. */
  function Reduce(state: seq<Alert>, action: Action): (r: seq<Alert>)
    ensures action.SetAlert? ==> |r| == |state| + 1 && r[..|state|] == state && r[|state|] == action.payload
    ensures action.Other? ==> r == state
    ensures action.RemoveAlert? ==> forall i :: 0 <= i < |r| ==> r[i].id != action.id
  {
    match action
    case SetAlert(a) => state + [a]
    case RemoveAlert(id) => Without(state, id)
    case Other(_) => state
  }

  /** The reducer as Redux calls it: an undefined state starts as []. */
  function ReduceOrInit(state: Option<seq<Alert>>, action: Action): (r: seq<Alert>)
    ensures state.None? && !action.SetAlert? ==> r == []
    ensures state.None? && action.SetAlert? ==> r == [action.payload]
  {
    Reduce(if state.None? then InitialState else state.value, action)
  }

  /** `s` is `t` with some elements left out, the rest in the same order. */
  ghost predicate IsSubsequence(s: seq<Alert>, t: seq<Alert>)
    decreases |t|
  {
    s == [] || (t != [] && ((s[0] == t[0] && IsSubsequence(s[1..], t[1..])) || IsSubsequence(s, t[1..])))
  }

  /** REMOVE_ALERT keeps exactly the alerts whose id differs, each as
      often as before, in their original order. */
  lemma RemoveAlertExact(state: seq<Alert>, id: string)
    ensures IsSubsequence(Without(state, id), state)
    ensures forall a :: multiset(Without(state, id))[a] == if a.id == id then 0 else multiset(state)[a]
  {
    WithoutIsSubsequence(state, id);
    WithoutCounts(state, id);
  }

  /** One step of the filter: the head is kept exactly when its id differs. */
  lemma WithoutCons(state: seq<Alert>, id: string)
    requires state != []
    ensures Without(state, id) == (if state[0].id != id then [state[0]] else []) + Without(state[1..], id)
  {
  }

  lemma {:induction false} WithoutIsSubsequence(state: seq<Alert>, id: string)
    ensures IsSubsequence(Without(state, id), state)
  {
    if state != [] {
      WithoutIsSubsequence(state[1..], id);
      WithoutCons(state, id);
      var rest := Without(state[1..], id);
      if state[0].id == id {
        assert Without(state, id) == rest;
        SubsequenceOfTail(rest, state);
      } else {
        assert Without(state, id) == [state[0]] + rest;
        assert ([state[0]] + rest)[1..] == rest;
      }
    }
  }

  lemma {:induction false} WithoutCounts(state: seq<Alert>, id: string)
    ensures forall a :: multiset(Without(state, id))[a] == if a.id == id then 0 else multiset(state)[a]
  {
    if state != [] {
      WithoutCounts(state[1..], id);
      WithoutCons(state, id);
      var h := if state[0].id != id then [state[0]] else [];
      assert state == [state[0]] + state[1..];
      assert multiset(state) == multiset([state[0]]) + multiset(state[1..]);
      assert multiset(Without(state, id)) == multiset(h) + multiset(Without(state[1..], id));
    }
  }

  lemma SubsequenceOfTail(s: seq<Alert>, t: seq<Alert>)
    requires t != [] && IsSubsequence(s, t[1..])
    ensures IsSubsequence(s, t)
  {
  }

  /** Removing an id no alert has hands back the state unchanged. */
  lemma {:induction false} RemoveAbsentIsIdentity(state: seq<Alert>, id: string)
    requires forall a :: a in state ==> a.id != id
    ensures Without(state, id) == state
  {
    if state != [] {
      RemoveAbsentIsIdentity(state[1..], id);
      assert state == [state[0]] + state[1..];
    }
  }

  /** REMOVE_ALERT twice with the same id is REMOVE_ALERT once. */
  lemma RemoveAlertIdempotent(state: seq<Alert>, id: string)
    ensures Reduce(Reduce(state, RemoveAlert(id)), RemoveAlert(id)) == Reduce(state, RemoveAlert(id))
  {
    RemoveAbsentIsIdentity(Without(state, id), id);
  }

  /** Filtering a concatenation filters each part. */
  lemma {:induction false} WithoutAppend(s: seq<Alert>, t: seq<Alert>, id: string)
    ensures Without(s + t, id) == Without(s, id) + Without(t, id)
  {
    if s == [] {
      assert s + t == t;
    } else {
      var st := s + t;
      assert st[0] == s[0] && st[1..] == s[1..] + t;
      WithoutAppend(s[1..], t, id);
      var h := if s[0].id != id then [s[0]] else [];
      WithoutCons(st, id);
      WithoutCons(s, id);
      assert Without(st, id) == h + (Without(s[1..], id) + Without(t, id));
    }
  }

  /** SET_ALERT of an alert whose id is new, then REMOVE_ALERT of that id,
      restores the state: the life of one alert raised by `setAlert` with
      a fresh id. */
  lemma SetThenRemoveRestores(state: seq<Alert>, a: Alert)
    requires forall b :: b in state ==> b.id != a.id
    ensures Reduce(Reduce(state, SetAlert(a)), RemoveAlert(a.id)) == state
  {
    WithoutAppend(state, [a], a.id);
    RemoveAbsentIsIdentity(state, a.id);
    assert Without([a], a.id) == [];
  }

  /** Removals of two ids commute. */
  lemma {:induction false} RemoveAlertsCommute(state: seq<Alert>, x: string, y: string)
    ensures Without(Without(state, x), y) == Without(Without(state, y), x)
  {
    if state != [] {
      var rest := state[1..];
      RemoveAlertsCommute(rest, x, y);
      WithoutCons(state, x);
      WithoutCons(state, y);
      var hx := if state[0].id != x then [state[0]] else [];
      var hy := if state[0].id != y then [state[0]] else [];
      WithoutAppend(hx, Without(rest, x), y);
      WithoutAppend(hy, Without(rest, y), x);
      assert Without(hx, y) == Without(hy, x);
    }
  }
}
