/** The bounded reply collector of the execution agent (`wait_for_risk`,
    `wait_for_yield`): poll the bus up to twenty times and keep the first message
    of the expected type; everything else polled is consumed and dropped. */
module Collector {
  import opened Wrappers
  import opened Bus

  /** `for _ in range(20)`. */
  const MaxAttempts: nat := 20

  /** What the `i`-th receive from `inbox` returns: once the bus has nothing more
      to deliver, every receive times out. */
  function Stream(inbox: seq<Option<Msg>>, i: nat): Option<Msg> {
    if i < |inbox| then inbox[i] else None
  }

  /** The bus after one receive. */
  function Drop1(inbox: seq<Option<Msg>>): seq<Option<Msg>> {
    if |inbox| > 0 then inbox[1..] else []
  }

  lemma StreamShift(inbox: seq<Option<Msg>>, i: nat)
    ensures Stream(Drop1(inbox), i) == Stream(inbox, i + 1)
  {
  }

  /** `msg and msg.get('type') == want`. */
  predicate Matches(m: Option<Msg>, want: Tag) {
    m.Some? && TagOf(m.value) == Some(want)
  }

  function MinNat(a: nat, b: nat): nat {
    if a <= b then a else b
  }

  /** The outcome of a wait: the matching message (if any), every receive attempt
      made, and what is left on the bus. */
  datatype Wait = Wait(found: Option<Msg>, polls: seq<Option<Msg>>, rest: seq<Option<Msg>>)

  /** `w` is what at most `attempts` receives from `inbox` collect when they stop at
      the first message of type `want`: the polls are the first receives in order,
      the rest of the bus is what they left, and either nothing matched in all
      `attempts` receives or the last poll is the first match. */
  ghost predicate Collected(inbox: seq<Option<Msg>>, want: Tag, attempts: nat, w: Wait) {
    && |w.polls| <= attempts
    && (forall i :: 0 <= i < |w.polls| ==> w.polls[i] == Stream(inbox, i))
    && w.rest == inbox[MinNat(|w.polls|, |inbox|)..]
    && (w.found.None? ==>
          |w.polls| == attempts && forall i :: 0 <= i < attempts ==> !Matches(Stream(inbox, i), want))
    && (w.found.Some? ==>
          && 1 <= |w.polls|
          && Matches(w.found, want)
          && w.found == Stream(inbox, |w.polls| - 1)
          && forall i :: 0 <= i < |w.polls| - 1 ==> !Matches(Stream(inbox, i), want))
  }

  /** At most `attempts` receives; stops at the first message of type `want`. */
  function Await(inbox: seq<Option<Msg>>, want: Tag, attempts: nat): (w: Wait)
    ensures Collected(inbox, want, attempts, w)
    decreases attempts
  {
    if attempts == 0 then Wait(None, [], inbox)
    else
      var m := Stream(inbox, 0);
      var tail := Drop1(inbox);
      if Matches(m, want) then Wait(m, [m], tail)
      else
        var w := Await(tail, want, attempts - 1);
        PrependMiss(inbox, want, attempts, w);
        Wait(w.found, [m] + w.polls, w.rest)
  }

  /** One receive that does not match, followed by a wait on the rest of the bus. */
  lemma PrependMiss(inbox: seq<Option<Msg>>, want: Tag, attempts: nat, w: Wait)
    requires 1 <= attempts && !Matches(Stream(inbox, 0), want)
    requires Collected(Drop1(inbox), want, attempts - 1, w)
    ensures Collected(inbox, want, attempts, Wait(w.found, [Stream(inbox, 0)] + w.polls, w.rest))
  {
    var polls := [Stream(inbox, 0)] + w.polls;
    forall i | 1 <= i < |polls| ensures polls[i] == Stream(inbox, i) {
      StreamShift(inbox, i - 1);
    }
    forall i | 1 <= i < attempts ensures Stream(Drop1(inbox), i - 1) == Stream(inbox, i) {
      StreamShift(inbox, i - 1);
    }
  }

  /** What a later receive sees after a wait is the bus shifted by the receives the
      wait made. */
  lemma RestIsShifted(inbox: seq<Option<Msg>>, want: Tag, attempts: nat, w: Wait, i: nat)
    requires Collected(inbox, want, attempts, w)
    ensures Stream(w.rest, i) == Stream(inbox, |w.polls| + i)
  {
    var n := MinNat(|w.polls|, |inbox|);
    if i < |w.rest| {
      assert w.rest[i] == inbox[n + i];
    }
  }

  /** Position `k` holds the first message of type `want`. */
  ghost predicate FirstMatchAt(inbox: seq<Option<Msg>>, want: Tag, k: nat) {
    Matches(Stream(inbox, k), want) && forall j :: 0 <= j < k ==> !Matches(Stream(inbox, j), want)
  }

  /** The collector returns a message exactly when one of the expected type is
      among the first `n` receives, and then it is the first such one, found after
      exactly `k + 1` receives. */
  lemma AwaitFindsFirstMatch(inbox: seq<Option<Msg>>, want: Tag, n: nat)
    ensures Await(inbox, want, n).found.Some? <==> exists k: nat :: k < n && FirstMatchAt(inbox, want, k)
    ensures forall k: nat :: k < n && FirstMatchAt(inbox, want, k) ==>
      && Await(inbox, want, n).found == Stream(inbox, k)
      && |Await(inbox, want, n).polls| == k + 1
  {
    var w := Await(inbox, want, n);
    if w.found.Some? {
      assert FirstMatchAt(inbox, want, |w.polls| - 1);
    }
  }

  /** The collector returns a message exactly when one of the expected type is
      among the first `n` receives. */
  lemma AwaitFoundIff(inbox: seq<Option<Msg>>, want: Tag, n: nat)
    ensures Await(inbox, want, n).found.Some? <==> exists i :: 0 <= i < n && Matches(Stream(inbox, i), want)
  {
    var w := Await(inbox, want, n);
    if w.found.Some? {
      assert Matches(Stream(inbox, |w.polls| - 1), want);
    }
  }
}
