/**
 * The lifecycle states of an asynchronous operation, the observable key that
 * announces each state, the change notifications emitted around every
 * assignment to the state, and the flags derived from the state.
 */
module Operation {

  /** The three lifecycle states; an operation is created Ready. */
  datatype State = Ready | Executing | Finished

  /** Position of a state in the lifecycle Ready -> Executing -> Finished. */
  function Rank(s: State): nat
  {
    match s
    case Ready => 0
    case Executing => 1
    case Finished => 2
  }

  /**
   * The key under which observers are told that the flag belonging to `s`
   * changes. Every key names a boolean getter, so it starts with "is".
   */
  function KeyPath(s: State): (key: string)
    ensures |key| > 2 && key[..2] == "is"
  {
    match s
    case Ready => "isReady"
    case Executing => "isExecuting"
    case Finished => "isFinished"
  }

  /** Distinct states are announced under distinct keys. */
  lemma KeyPathInjective(a: State, b: State)
    ensures KeyPath(a) == KeyPath(b) <==> a == b
  {
    if a != b {
      assert KeyPath(a)[2] != KeyPath(b)[2];
    }
  }

  /** A change notification sent to observers of one key. */
  datatype Event = WillChange(key: string) | DidChange(key: string)

  /**
   * The four notifications emitted by one assignment `state := to` made
   * while the state is `from`: the will-set observer announces the new key
   * and then the old one, the did-set observer closes the old key and then
   * the new one.
   */
  function Notifications(from: State, to: State): (r: seq<Event>)
    ensures IsBlock(r)
    ensures r[0].key == KeyPath(to) && r[1].key == KeyPath(from)
  {
    [WillChange(KeyPath(to)), WillChange(KeyPath(from)), DidChange(KeyPath(from)), DidChange(KeyPath(to))]
  }

  /**
   * Four notifications that open two keys and close them again innermost
   * first.
   */
  predicate IsBlock(b: seq<Event>)
  {
    && |b| == 4
    && b[0].WillChange? && b[1].WillChange?
    && b[2] == DidChange(b[1].key)
    && b[3] == DidChange(b[0].key)
  }

  /** A notification log made only of whole blocks, one per assignment. */
  predicate IsLog(ev: seq<Event>)
    decreases |ev|
  {
    ev == [] || (|ev| >= 4 && IsBlock(ev[|ev| - 4..]) && IsLog(ev[..|ev| - 4]))
  }

  /** Every will-change is followed later by a did-change of the same key. */
  ghost predicate WillsAnswered(ev: seq<Event>)
  {
    forall i :: 0 <= i < |ev| && ev[i].WillChange? ==>
      exists j :: i < j < |ev| && ev[j] == DidChange(ev[i].key)
  }

  /** Every did-change comes after a will-change of the same key. */
  ghost predicate DidsPreceded(ev: seq<Event>)
  {
    forall j :: 0 <= j < |ev| && ev[j].DidChange? ==>
      exists i :: 0 <= i < j && ev[i] == WillChange(ev[j].key)
  }

  /** Appending the notifications of one more assignment keeps a log a log. */
  lemma LogExtend(ev: seq<Event>, from: State, to: State)
    requires IsLog(ev)
    ensures IsLog(ev + Notifications(from, to))
  {
    var ev' := ev + Notifications(from, to);
    assert ev'[..|ev'| - 4] == ev;
    assert ev'[|ev'| - 4..] == Notifications(from, to);
  }

  /** In a log, every will-change is eventually answered by its did-change. */
  lemma {:induction false} LogWillsAnswered(ev: seq<Event>)
    requires IsLog(ev)
    ensures WillsAnswered(ev)
    decreases |ev|
  {
    if ev != [] {
      var n := |ev| - 4;
      var p := ev[..n];
      LogWillsAnswered(p);
      forall i | 0 <= i < |ev| && ev[i].WillChange?
        ensures exists j :: i < j < |ev| && ev[j] == DidChange(ev[i].key)
      {
        if i < n {
          assert p[i] == ev[i];
          var j :| i < j < |p| && p[j] == DidChange(p[i].key);
          assert ev[j] == p[j];
        } else {
          assert ev[n..][i - n] == ev[i];
          if i == n {
            assert ev[n..][3] == ev[n + 3];
          } else {
            assert ev[n..][2] == ev[n + 2];
          }
        }
      }
    }
  }

  /** In a log, every did-change answers an earlier will-change. */
  lemma {:induction false} LogDidsPreceded(ev: seq<Event>)
    requires IsLog(ev)
    ensures DidsPreceded(ev)
    decreases |ev|
  {
    if ev != [] {
      var n := |ev| - 4;
      var p := ev[..n];
      LogDidsPreceded(p);
      forall j | 0 <= j < |ev| && ev[j].DidChange?
        ensures exists i :: 0 <= i < j && ev[i] == WillChange(ev[j].key)
      {
        if j < n {
          assert p[j] == ev[j];
          var i :| 0 <= i < j && p[i] == WillChange(p[j].key);
          assert ev[i] == p[i];
        } else {
          assert ev[n..][j - n] == ev[j];
          if j == n + 2 {
            assert ev[n..][1] == ev[n + 1];
          } else {
            assert ev[n..][0] == ev[n];
          }
        }
      }
    }
  }

  /** A block opens and closes each key equally often. */
  lemma BlockBalanced(b: seq<Event>, k: string)
    requires IsBlock(b)
    ensures multiset(b)[WillChange(k)] == multiset(b)[DidChange(k)]
  {
    var x, y := b[0].key, b[1].key;
    assert b == [WillChange(x), WillChange(y), DidChange(y), DidChange(x)];
    assert multiset(b) == multiset{WillChange(x), WillChange(y), DidChange(y), DidChange(x)};
  }

  /** In a log, each key is opened exactly as often as it is closed. */
  lemma {:induction false} LogBalanced(ev: seq<Event>, k: string)
    requires IsLog(ev)
    ensures multiset(ev)[WillChange(k)] == multiset(ev)[DidChange(k)]
    decreases |ev|
  {
    if ev != [] {
      var n := |ev| - 4;
      var p, b := ev[..n], ev[n..];
      LogBalanced(p, k);
      BlockBalanced(b, k);
      assert ev == p + b;
      assert multiset(ev) == multiset(p) + multiset(b);
    }
  }

  /** The `ready` flag: the inherited readiness and the Ready state. */
  predicate ReadyFlag(inheritedReady: bool, s: State)
  {
    inheritedReady && s == Ready
  }

  /** The `executing` flag. */
  predicate ExecutingFlag(s: State)
  {
    s == Executing
  }

  /** The `finished` flag. */
  predicate FinishedFlag(s: State)
  {
    s == Finished
  }

  /** The `asynchronous` flag: the operation hands its work off. */
  predicate AsynchronousFlag()
  {
    true
  }

  /**
   * The flags are read off the state: at most one of them holds, exactly one
   * does when the inherited readiness holds, `ready` needs the inherited
   * readiness, and the operation always reports itself asynchronous.
   */
  lemma FlagsFollowState(inheritedReady: bool, s: State)
    ensures !(ExecutingFlag(s) && FinishedFlag(s))
    ensures ReadyFlag(inheritedReady, s) ==> !ExecutingFlag(s) && !FinishedFlag(s)
    ensures ReadyFlag(inheritedReady, s) ==> inheritedReady
    ensures inheritedReady ==> (ReadyFlag(inheritedReady, s) || ExecutingFlag(s) || FinishedFlag(s))
    ensures AsynchronousFlag()
  {
  }
}
