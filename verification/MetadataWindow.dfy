/** The request window of a metadata download: which chunks are outstanding, what each pass may ask for,
    and when it asks again. */
module MetadataWindow {
  import opened Basics
  import opened Metadata

  const RETRY_SECONDS: real := 5.0

  /** The three readings of the clock in one pass: for the deadline, for the retry, after sending. */
  datatype Pass = Pass(atStart: real, atRetry: real, afterSend: real)

  datatype Move = Ask(piece: nat) | Got(piece: nat)

  // ---------------------------------------------------------------------- window

  ghost function Asked(log: seq<Move>): set<nat> {
    set m | m in log && m.Ask? :: m.piece
  }

  ghost function Arrived(log: seq<Move>): set<nat> {
    set m | m in log && m.Got? :: m.piece
  }

  /** At every moment at most four distinct chunks are outstanding, and none that arrived is asked for. */
  ghost predicate WindowKept(log: seq<Move>) {
    forall n :: 0 <= n <= |log| ==> WindowAt(log, n)
  }

  ghost predicate WindowAt(log: seq<Move>, n: nat)
    requires n <= |log|
  {
    && |Asked(log[..n]) - Arrived(log[..n])| <= REQUEST_PIPELINE
    && (n < |log| && log[n].Ask? ==> log[n].piece !in Arrived(log[..n]))
  }

  lemma MoveEffect(log: seq<Move>, m: Move)
    ensures Asked(log + [m]) == if m.Ask? then Asked(log) + {m.piece} else Asked(log)
    ensures Arrived(log + [m]) == if m.Got? then Arrived(log) + {m.piece} else Arrived(log)
  {
    assert forall x :: x in log + [m] <==> x in log || x == m;
    if m.Ask? {
      assert m in log + [m];
      assert m.piece in Asked(log + [m]);
    } else {
      assert m in log + [m];
      assert m.piece in Arrived(log + [m]);
    }
    forall k | k in Asked(log)
      ensures k in Asked(log + [m])
    {
      assert Ask(k) in log + [m];
    }
    forall k | k in Arrived(log)
      ensures k in Arrived(log + [m])
    {
      assert Got(k) in log + [m];
    }
  }

  lemma WindowGrows(log: seq<Move>, m: Move)
    requires WindowKept(log)
    requires m.Ask? ==> m.piece !in Arrived(log)
    requires |Asked(log + [m]) - Arrived(log + [m])| <= REQUEST_PIPELINE
    ensures WindowKept(log + [m])
  {
    var all := log + [m];
    forall n | 0 <= n <= |all|
      ensures WindowAt(all, n)
    {
      if n <= |log| {
        assert all[..n] == log[..n];
        assert WindowAt(log, n);
        if n == |log| {
          assert log[..n] == log;
        }
      } else {
        assert all[..n] == all;
      }
    }
  }

  /** The chunks not yet here, lowest first. */
  function Missing(here: set<nat>, from: nat, pieces: nat): seq<nat>
    decreases pieces - from
  {
    if from >= pieces then []
    else if from in here then Missing(here, from + 1, pieces)
    else [from] + Missing(here, from + 1, pieces)
  }

  lemma InFront(k: nat, s: seq<nat>)
    requires Ascends(s) && forall i :: i in s ==> k < i
    ensures Ascends([k] + s) && forall i :: i in [k] + s <==> i == k || i in s
  {
    assert forall j :: 0 <= j < |s| ==> s[j] in s;
  }

  lemma {:induction false} MissingFrom(here: set<nat>, from: nat, pieces: nat)
    ensures var m := Missing(here, from, pieces);
            Ascends(m) && forall k :: k in m <==> from <= k < pieces && k !in here
    decreases pieces - from
  {
    if from < pieces {
      MissingFrom(here, from + 1, pieces);
      InFront(from, Missing(here, from + 1, pieces));
    }
  }

  function Unasked(missing: seq<nat>, requested: set<nat>): seq<nat> {
    if missing == [] then []
    else if missing[0] in requested then Unasked(missing[1..], requested)
    else [missing[0]] + Unasked(missing[1..], requested)
  }

  lemma {:induction false} UnaskedAre(missing: seq<nat>, requested: set<nat>)
    ensures forall k :: k in Unasked(missing, requested) <==> k in missing && k !in requested
  {
    if missing != [] {
      UnaskedAre(missing[1..], requested);
      assert missing == [missing[0]] + missing[1..];
    }
  }

  function Take(s: seq<nat>, n: int): seq<nat> {
    if n <= 0 then [] else if |s| <= n then s else s[..n]
  }

  lemma TakeWithin(s: seq<nat>, n: int)
    ensures |Take(s, n)| <= Max(0, n) && forall k :: k in Take(s, n) ==> k in s
  {
  }

  ghost function SetOf(s: seq<nat>): set<nat> {
    set k | k in s
  }

  lemma {:induction false} SizeOfSetOf(s: seq<nat>)
    ensures |SetOf(s)| <= |s|
  {
    if s == [] {
      assert SetOf(s) == {};
    } else {
      SizeOfSetOf(s[1..]);
      assert s == [s[0]] + s[1..];
      assert SetOf(s) == {s[0]} + SetOf(s[1..]);
    }
  }

  lemma SetOfMore(s: seq<nat>, i: nat)
    requires i < |s|
    ensures SetOf(s[..i + 1]) == SetOf(s[..i]) + {s[i]}
  {
    assert s[..i + 1] == s[..i] + [s[i]];
  }

  /** What is outstanding is always the lowest part of what is missing. */
  ghost predicate LowestFirst(here: set<nat>, requested: set<nat>, pieces: nat) {
    forall i: nat, j: nat :: i in requested && j < pieces && i !in here && j !in here && j !in requested ==> i < j
  }

  ghost predicate Counted(here: set<nat>, requested: set<nat>, log: seq<Move>) {
    requested == Asked(log) && here == Arrived(log) && WindowKept(log)
  }

  ghost predicate Window(here: set<nat>, requested: set<nat>, pieces: nat, log: seq<Move>) {
    && Counted(here, requested, log)
    && (forall k :: k in requested ==> k < pieces)
    && |requested - here| <= REQUEST_PIPELINE
    && LowestFirst(here, requested, pieces)
  }

  lemma AskOne(here: set<nat>, requested: set<nat>, target: set<nat>, log: seq<Move>, k: nat)
    requires Counted(here, requested, log) && k !in here && requested + {k} <= target
    requires |target - here| <= REQUEST_PIPELINE
    ensures Counted(here, requested + {k}, log + [Ask(k)])
  {
    MoveEffect(log, Ask(k));
    SubsetSize(requested + {k} - here, target - here);
    WindowGrows(log, Ask(k));
  }

  lemma GotOne(here: set<nat>, requested: set<nat>, pieces: nat, log: seq<Move>, k: nat)
    requires Window(here, requested, pieces, log)
    ensures Window(here + {k}, requested, pieces, log + [Got(k)])
  {
    MoveEffect(log, Got(k));
    SubsetSize(requested - (here + {k}), requested - here);
    WindowGrows(log, Got(k));
  }

  ghost predicate Ascends(s: seq<nat>) {
    forall i, j :: 0 <= i < j < |s| ==> s[i] < s[j]
  }

  lemma {:induction false} UnaskedAscends(missing: seq<nat>, requested: set<nat>)
    requires Ascends(missing)
    ensures Ascends(Unasked(missing, requested))
  {
    if missing != [] {
      UnaskedAscends(missing[1..], requested);
      UnaskedAre(missing[1..], requested);
      var rest := Unasked(missing[1..], requested);
      forall j | 0 <= j < |rest|
        ensures missing[0] < rest[j]
      {
        assert rest[j] in rest;
        var i :| 0 <= i < |missing[1..]| && missing[1..][i] == rest[j];
        assert missing[i + 1] == rest[j];
      }
    }
  }

  /** In an ascending list, what was left out is above what was taken. */
  lemma TakenIsLowest(u: seq<nat>, n: int, i: nat, j: nat)
    requires Ascends(u) && i in Take(u, n) && j in u && j !in Take(u, n)
    ensures i < j
  {
    var s := Take(u, n);
    var x :| 0 <= x < |u| && u[x] == j;
    var y :| 0 <= y < |s| && s[y] == i;
    assert forall z :: 0 <= z < |s| ==> s[z] in s && u[z] == s[z];
  }

  /** A list of the missing chunks, lowest first. */
  ghost predicate IsMissing(m: seq<nat>, here: set<nat>, pieces: nat) {
    Ascends(m) && forall k: nat :: k in m <==> k < pieces && k !in here
  }

  lemma MissingIs(here: set<nat>, pieces: nat)
    ensures IsMissing(Missing(here, 0, pieces), here, pieces)
  {
    MissingFrom(here, 0, pieces);
  }

  /** Sending the lowest unasked chunks keeps the outstanding ones lowest. */
  lemma SendingLowest(here: set<nat>, requested: set<nat>, pieces: nat, missing: seq<nat>, room: nat)
    requires LowestFirst(here, requested, pieces) && IsMissing(missing, here, pieces)
    ensures LowestFirst(here, requested + SetOf(Take(Unasked(missing, requested), room)), pieces)
  {
    var u := Unasked(missing, requested);
    var t := Take(u, room);
    UnaskedAscends(missing, requested);
    UnaskedAre(missing, requested);
    TakeWithin(u, room);
    forall i: nat, j: nat |
      i in requested + SetOf(t) && j < pieces && i !in here && j !in here && j !in requested + SetOf(t)
      ensures i < j
    {
      if i !in requested {
        assert j in missing;
        assert i in t && j !in t;
        TakenIsLowest(u, room, i, j);
      }
    }
  }

  lemma WindowRoom(here: set<nat>, requested: set<nat>, t: seq<nat>)
    ensures |(requested + SetOf(t)) - here| <= |requested - here| + |t|
  {
    SizeOfSetOf(t);
    SubsetSize((requested + SetOf(t)) - here, (requested - here) + SetOf(t));
  }

  /** In an ascending list, everything below the element at `x` stands before it. */
  lemma BelowStandsBefore(m: seq<nat>, x: nat, f: set<nat>)
    requires x < |m| && Ascends(m) && forall i :: i in f ==> i in m && i < m[x]
    ensures |f| <= x
  {
    forall i | i in f
      ensures i in SetOf(m[..x])
    {
      var y :| 0 <= y < |m| && m[y] == i;
      assert y < x;
      assert m[..x][y] == i;
    }
    SizeOfSetOf(m[..x]);
    SubsetSize(f, SetOf(m[..x]));
  }

  /** With the window full, or with nothing left to ask for, the four lowest missing chunks are ones
      already asked for: a retry never widens the window. */
  lemma RetryAsksNothingNew(here: set<nat>, requested: set<nat>, pieces: nat, missing: seq<nat>)
    requires LowestFirst(here, requested, pieces) && forall k :: k in requested ==> k < pieces
    requires IsMissing(missing, here, pieces)
    requires Take(Unasked(missing, requested), REQUEST_PIPELINE - |requested - here|) == []
    ensures SetOf(Take(missing, REQUEST_PIPELINE)) <= requested
  {
    var t := Take(missing, REQUEST_PIPELINE);
    UnaskedAre(missing, requested);
    forall x | 0 <= x < |t|
      ensures t[x] in requested
    {
      var k := t[x];
      assert missing[x] == k && k in missing;
      if k !in requested {
        assert k in Unasked(missing, requested);
        BelowStandsBefore(missing, x, requested - here);
      }
    }
  }

  /** Asking for `s` keeps the window. */
  ghost predicate Sendable(here: set<nat>, requested: set<nat>, pieces: nat, s: set<nat>) {
    && (forall k :: k in s ==> k < pieces && k !in here)
    && LowestFirst(here, requested + s, pieces)
    && |(requested + s) - here| <= REQUEST_PIPELINE
  }

  /** What a pass asks for when the last request was sent `waited` seconds ago. */
  ghost function PassAsks(pieces: nat, requested: set<nat>, here: set<nat>, waited: real): seq<nat> {
    var missing := Missing(here, 0, pieces);
    var first := Take(Unasked(missing, requested), REQUEST_PIPELINE - |requested - here|);
    if first == [] && waited >= RETRY_SECONDS then Take(missing, REQUEST_PIPELINE) else first
  }

  lemma FirstChoiceIsSafe(here: set<nat>, requested: set<nat>, pieces: nat, missing: seq<nat>)
    requires LowestFirst(here, requested, pieces) && |requested - here| <= REQUEST_PIPELINE
    requires IsMissing(missing, here, pieces)
    ensures Sendable(here, requested, pieces, SetOf(Take(Unasked(missing, requested),
                                                         REQUEST_PIPELINE - |requested - here|)))
  {
    var room := REQUEST_PIPELINE - |requested - here|;
    var first := Take(Unasked(missing, requested), room);
    SendingLowest(here, requested, pieces, missing, room);
    UnaskedAre(missing, requested);
    TakeWithin(Unasked(missing, requested), room);
    WindowRoom(here, requested, first);
    OnlyMissing(missing, here, pieces, Unasked(missing, requested), room);
  }

  lemma RetryIsSafe(here: set<nat>, requested: set<nat>, pieces: nat, missing: seq<nat>)
    requires LowestFirst(here, requested, pieces) && |requested - here| <= REQUEST_PIPELINE
    requires IsMissing(missing, here, pieces) && forall k :: k in requested ==> k < pieces
    requires Take(Unasked(missing, requested), REQUEST_PIPELINE - |requested - here|) == []
    ensures Sendable(here, requested, pieces, SetOf(Take(missing, REQUEST_PIPELINE)))
  {
    RetryAsksNothingNew(here, requested, pieces, missing);
    OnlyMissing(missing, here, pieces, missing, REQUEST_PIPELINE);
    assert requested + SetOf(Take(missing, REQUEST_PIPELINE)) == requested;
  }

  lemma ChoiceIsSafe(here: set<nat>, requested: set<nat>, pieces: nat, waited: real)
    requires LowestFirst(here, requested, pieces) && |requested - here| <= REQUEST_PIPELINE
    requires forall k :: k in requested ==> k < pieces
    ensures Sendable(here, requested, pieces, SetOf(PassAsks(pieces, requested, here, waited)))
  {
    var missing, room := Missing(here, 0, pieces), REQUEST_PIPELINE - |requested - here|;
    MissingIs(here, pieces);
    if Take(Unasked(missing, requested), room) == [] && waited >= RETRY_SECONDS {
      RetryIsSafe(here, requested, pieces, missing);
    } else {
      FirstChoiceIsSafe(here, requested, pieces, missing);
    }
  }

  lemma OnlyMissing(missing: seq<nat>, here: set<nat>, pieces: nat, from: seq<nat>, n: nat)
    requires IsMissing(missing, here, pieces) && forall k :: k in from ==> k in missing
    ensures forall k :: k in SetOf(Take(from, n)) ==> k < pieces && k !in here
  {
    TakeWithin(from, n);
    forall k | k in SetOf(Take(from, n))
      ensures k in missing
    {
      assert k in Take(from, n);
    }
  }

  // ---------------------------------------------------------------------- passes

  ghost function Asks(s: seq<nat>): seq<Move> {
    seq(|s|, i requires 0 <= i < |s| => Ask(s[i]))
  }

  lemma AsksMore(log: seq<Move>, s: seq<nat>, i: nat)
    requires i < |s|
    ensures log + Asks(s[..i + 1]) == log + Asks(s[..i]) + [Ask(s[i])]
  {
    assert Asks(s[..i + 1]) == Asks(s[..i]) + [Ask(s[i])];
  }

  ghost function Gots(got: Option<nat>): seq<Move> {
    if got.Some? then [Got(got.value)] else []
  }

  /** `s` is the `n` lowest of `all`, or all of it, lowest first. */
  ghost predicate Lowest(s: seq<nat>, all: set<nat>, n: nat) {
    && |s| == Min(n, |all|) && Ascends(s)
    && (forall k :: k in s ==> k in all)
    && forall i, j :: i in s && j in all && j !in s ==> i < j
  }

  /** A pass asks for the lowest missing chunks nobody asked for yet, as many as keep four outstanding. With
      none to ask for it asks again for the four lowest missing, if five seconds went by since the last
      request, and for nothing otherwise. */
  ghost predicate AsksRightly(pieces: nat, asked: set<nat>, here: set<nat>, waited: real, s: seq<nat>) {
    var missing := Below(pieces) - here;
    if |asked - here| < 4 && missing - asked != {} then
      Lowest(s, missing - asked, 4 - |asked - here|)
    else if waited >= 5.0 then
      Lowest(s, missing, 4)
    else
      s == []
  }

  lemma {:induction false} SizeOfAscending(s: seq<nat>)
    requires Ascends(s)
    ensures |SetOf(s)| == |s|
  {
    if s == [] {
      assert SetOf(s) == {};
    } else {
      SizeOfAscending(s[1..]);
      assert s == [s[0]] + s[1..];
      assert SetOf(s) == {s[0]} + SetOf(s[1..]);
      assert s[0] !in s[1..];
    }
  }

  lemma TakenAreLowest(u: seq<nat>, all: set<nat>, n: nat)
    requires Ascends(u) && forall k :: k in u <==> k in all
    ensures Lowest(Take(u, n), all, n)
  {
    SizeOfAscending(u);
    TakeWithin(u, n);
    assert SetOf(u) == all;
    forall i, j | i in Take(u, n) && j in all && j !in Take(u, n)
      ensures i < j
    {
      TakenIsLowest(u, n, i, j);
    }
  }

  /** What a pass picks is what it should ask for. */
  lemma ChoiceIsRight(pieces: nat, requested: set<nat>, here: set<nat>, waited: real)
    requires |requested - here| <= 4
    ensures AsksRightly(pieces, requested, here, waited, PassAsks(pieces, requested, here, waited))
  {
    var missing := Missing(here, 0, pieces);
    MissingIs(here, pieces);
    var room := 4 - |requested - here|;
    var u := Unasked(missing, requested);
    UnaskedAscends(missing, requested);
    UnaskedAre(missing, requested);
    TakenAreLowest(u, Below(pieces) - here - requested, room);
    TakenAreLowest(missing, Below(pieces) - here, 4);
    if room > 0 && Below(pieces) - here - requested != {} {
      var k :| k in Below(pieces) - here - requested;
      assert k in u;
    }
  }

  ghost predicate Kept(log: seq<Move>, pieces: nat) {
    Window(Arrived(log), Asked(log), pieces, log)
  }

  lemma EmptyWindow(pieces: nat)
    ensures Kept([], pieces)
  {
    var log: seq<Move> := [];
    assert log[..0] == [] && Asked(log) == {} && Arrived(log) == {};
  }

  /** Asking for `t` one after the other keeps the count. */
  lemma {:induction false} AskAll(here: set<nat>, requested: set<nat>, log: seq<Move>, t: seq<nat>)
    requires Counted(here, requested, log) && forall k :: k in SetOf(t) ==> k !in here
    requires |(requested + SetOf(t)) - here| <= REQUEST_PIPELINE
    ensures Counted(here, requested + SetOf(t), log + Asks(t))
  {
    if t == [] {
      assert log + Asks(t) == log && requested + SetOf(t) == requested;
    } else {
      var n := |t| - 1;
      assert t[..n + 1] == t;
      SetOfMore(t, n);
      SubsetSize((requested + SetOf(t[..n])) - here, (requested + SetOf(t)) - here);
      AskAll(here, requested, log, t[..n]);
      AskOne(here, requested + SetOf(t[..n]), requested + SetOf(t), log + Asks(t[..n]), t[n]);
      AsksMore(log, t, n);
      assert requested + SetOf(t) == requested + SetOf(t[..n]) + {t[n]};
    }
  }

  /** A pass keeps the window. */
  lemma PassKept(pieces: nat, log: seq<Move>, waited: real, got: Option<nat>)
    requires Kept(log, pieces)
    ensures Kept(log + Asks(PassAsks(pieces, Asked(log), Arrived(log), waited)) + Gots(got), pieces)
  {
    var t := PassAsks(pieces, Asked(log), Arrived(log), waited);
    ChoiceIsSafe(Arrived(log), Asked(log), pieces, waited);
    AskAll(Arrived(log), Asked(log), log, t);
    var asked := log + Asks(t);
    if got.Some? {
      GotOne(Arrived(asked), Asked(asked), pieces, asked, got.value);
    } else {
      assert asked + Gots(got) == asked;
    }
  }
}
