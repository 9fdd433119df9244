/**
 What one pass of the service loop in src/server.cpp pushes for a streamed job: a
 decoded piece through the stop matcher, and at the end of the request what the
 decoder and the matcher still hold. How long the piece may be for all three
 texts to fit the queue.
 */
module ServicePasses {
  import opened Wrappers
  import opened Bytes
  import opened Unicode
  import opened Languages
  import Stops = StopMatchers
  import Queues = StreamQueues
  import Decoders = Utf8Decoders

  /** The longest text the queue takes, less what the matcher may hold. */
  const PIECE := Queues.MAX_TEXT - (Stops.MAX_STOP - 1)

  // ----- what a push can release -----

  predicate ShortStops(stops: seq<Word>) {
    Stops.AllNonempty(stops) && forall k | 0 <= k < |stops| :: |stops[k]| <= Stops.MAX_STOP
  }

  lemma {:induction false} HoldIsShort(text: Word, stops: seq<Word>)
    requires ShortStops(stops)
    ensures Stops.Hold(text, stops) < Stops.MAX_STOP
    decreases |stops|
  {
    if stops != [] {
      var last := stops[|stops| - 1];
      HoldIsShort(text, stops[..|stops| - 1]);
      assert Stops.HeldSuffix(text, last) < |last|;
    }
  }

  /** A push releases at most what was held and what came, and holds less than the longest stop. */
  lemma PushIsBounded(stops: seq<Word>, m: Stops.Matcher, text: Word)
    requires ShortStops(stops) && |m.pending| < Stops.MAX_STOP
    ensures var (next, out) := Stops.Push(stops, m, text);
            |out| <= |m.pending| + |text| && |next.pending| < Stops.MAX_STOP
  {
    if !m.stopped {
      var pending := m.pending + text;
      Stops.EarliestMeaning(pending, stops);
      HoldIsShort(pending, stops);
    }
  }

  lemma {:induction false} FeedIsBounded(stops: seq<Word>, m: Stops.Matcher, chunks: seq<Word>)
    requires ShortStops(stops) && |m.pending| < Stops.MAX_STOP
    ensures |Stops.Feed(stops, m, chunks).0.pending| < Stops.MAX_STOP
    decreases |chunks|
  {
    if chunks != [] {
      PushIsBounded(stops, m, chunks[0]);
      FeedIsBounded(stops, Stops.Push(stops, m, chunks[0]).0, chunks[1..]);
    }
  }

  // ----- which pieces fit -----

  /** Whatever the stops and the text before, a piece of this length is released in a text the queue takes. */
  ghost predicate AlwaysFits(n: nat) {
    forall stops, chunks, piece: Word | ShortStops(stops) && |piece| == n :: ReleasedFits(stops, chunks, piece)
  }

  ghost predicate ReleasedFits(stops: seq<Word>, chunks: seq<Word>, piece: Word)
    requires ShortStops(stops)
  {
    |Stops.Push(stops, Stops.Feed(stops, Stops.START, chunks).0, piece).1| <= Queues.MAX_TEXT
  }

  /** The pieces that always fit are exactly those of at most 7937 bytes. */
  lemma FitsIffShort(n: nat)
    ensures AlwaysFits(n) <==> n <= PIECE
  {
    if n <= PIECE {
      forall stops, chunks, piece: Word | ShortStops(stops) && |piece| == n ensures ReleasedFits(stops, chunks, piece) {
        FeedIsBounded(stops, Stops.START, chunks);
        PushIsBounded(stops, Stops.Feed(stops, Stops.START, chunks).0, piece);
      }
    } else {
      var stops, chunks, piece := LongPieceOverflows(n);
      assert !ReleasedFits(stops, chunks, piece);
    }
  }

  function Repeated(b: byte, n: nat): (w: Word)
    ensures |w| == n && forall i | 0 <= i < n :: w[i] == b
  {
    seq(n, i => b)
  }

  /** With a stop of 256 times "a", 255 times "a" are held, and any other text releases them with it. */
  lemma LongPieceOverflows(n: nat) returns (stops: seq<Word>, chunks: seq<Word>, piece: Word)
    requires n > 0
    ensures ShortStops(stops) && |piece| == n
    ensures |Stops.Push(stops, Stops.Feed(stops, Stops.START, chunks).0, piece).1| == Stops.MAX_STOP - 1 + n
  {
    var stop, held := Repeated(97, Stops.MAX_STOP), Repeated(97, Stops.MAX_STOP - 1);
    stops, chunks, piece := [stop], [held], Repeated(98, n);
    HeldBack(stop, held);
    Stops.OnePush(stops, held);
    ReleasedAgain(stop, held, piece);
  }

  lemma HeldBack(stop: Word, held: Word)
    requires stop == Repeated(97, Stops.MAX_STOP) && held == Repeated(97, Stops.MAX_STOP - 1)
    ensures ShortStops([stop]) && Stops.Push([stop], Stops.START, held) == (Stops.Matcher(held, false, []), [])
  {
    assert [] + held == held;
    Stops.EarliestMeaning(held, [stop]);
    assert Stops.IsHeld(held, stop, |held|) by {
      assert held[|held| - |held|..] == held == stop[..|held|];
    }
    Stops.HoldCovers(held, [stop], 0, |held|);
    assert held[0..] == held && held[..0] == [];
  }

  lemma ReleasedAgain(stop: Word, held: Word, piece: Word)
    requires stop == Repeated(97, Stops.MAX_STOP) && held == Repeated(97, Stops.MAX_STOP - 1)
    requires piece != [] && piece == Repeated(98, |piece|)
    ensures ShortStops([stop]) && |Stops.Push([stop], Stops.Matcher(held, false, []), piece).1| == |held| + |piece|
  {
    var pending := held + piece;
    Stops.EarliestMeaning(pending, [stop]);
    forall p: nat ensures !Stops.OccursAt(pending, stop, p) {
      if p + |stop| <= |pending| {
        assert pending[p..p + |stop|][|stop| - 1] == pending[p + |stop| - 1] == 98;
      }
    }
    NothingHeld(pending, stop);
  }

  lemma NothingHeld(pending: Word, stop: Word)
    requires pending != [] && pending[|pending| - 1] == 98 && stop == Repeated(97, Stops.MAX_STOP)
    ensures Stops.AllNonempty([stop]) && Stops.Hold(pending, [stop]) == 0
  {
    var none: seq<Word> := [];
    var n := Stops.HeldSuffix(pending, stop);
    Stops.HeldIsLongest(pending, stop, if |pending| < |stop| - 1 then |pending| else |stop| - 1);
    forall k: nat | 0 < k <= |pending| && k < |stop| ensures !Stops.IsHeld(pending, stop, k) {
      var tail, head := pending[|pending| - k..], stop[..k];
      assert tail[k - 1] == 98 && head[k - 1] == 97;
    }
    assert [stop][..0] == none && Stops.Hold(pending, none) == 0;
  }

  // ----- how long a decoded piece is -----

  /** Repairing at most triples a text. */
  lemma {:induction false} ScanAtMostTriples(w: Word, final: bool)
    ensures |Decoders.Scan(w, final).0| <= 3 * |w|
    decreases |w|
  {
    if w != [] && !Decoders.HeadOf(w).Unfinished? {
      ScanAtMostTriples(w[Decoders.HeadOf(w).n..], final);
    }
  }

  /** A token of at most 2642 bytes decodes to a piece that always fits. */
  lemma ShortTokensFit(pending: Word, bytes: Word)
    requires |pending| <= 3 && |bytes| <= 2642
    ensures |Decoders.Scan(pending + bytes, false).0| <= PIECE
  {
    ScanAtMostTriples(pending + bytes, false);
  }

  // ----- the pass -----

  /** The texts of a last pass: the piece, the decoder's rest, the matcher's rest. */
  function PassTexts(stops: seq<Word>, m: Stops.Matcher, piece: Word, rest: Word): (Word, Word, Word)
    requires Stops.AllNonempty(stops)
  {
    var (m1, t1) := Stops.Push(stops, m, piece);
    var (m2, t2) := Stops.Push(stops, m1, Decoders.Scan(rest, true).0);
    (t1, t2, Stops.Finish(m2))
  }

  lemma PassTextsFit(stops: seq<Word>, m: Stops.Matcher, piece: Word, rest: Word)
    requires ShortStops(stops) && |m.pending| < Stops.MAX_STOP && |piece| <= PIECE && |rest| <= 3
    ensures var (t1, t2, t3) := PassTexts(stops, m, piece, rest);
            |t1| <= Queues.MAX_TEXT && |t2| <= Queues.MAX_TEXT && |t3| <= Queues.MAX_TEXT
  {
    PushIsBounded(stops, m, piece);
    ScanAtMostTriples(rest, true);
    var m1 := Stops.Push(stops, m, piece).0;
    PushIsBounded(stops, m1, Decoders.Scan(rest, true).0);
  }

  ghost predicate OnlyPops(actions: seq<Queues.Action>) {
    forall i | 0 <= i < |actions| :: actions[i].PopAction?
  }

  lemma {:induction false} PopsPushNothing(actions: seq<Queues.Action>)
    requires OnlyPops(actions)
    ensures Queues.Pushes(actions) == 0 && Queues.Modest(actions)
    decreases |actions|
  {
    if actions != [] {
      PopsPushNothing(actions[1..]);
    }
  }

  lemma {:induction false} PushesConcat(a: seq<Queues.Action>, b: seq<Queues.Action>)
    ensures Queues.Pushes(a + b) == Queues.Pushes(a) + Queues.Pushes(b)
    decreases |a|
  {
    if a == [] {
      assert a + b == b;
    } else {
      assert (a + b)[1..] == a[1..] + b;
      PushesConcat(a[1..], b);
    }
  }

  /** Pops, a push, and pops again push one text more. */
  lemma OneMorePush(before: seq<Queues.Action>, text: Word, pops: seq<Queues.Action>)
    requires Queues.Modest(before) && |text| <= Queues.MAX_TEXT && OnlyPops(pops)
    ensures Queues.Modest(before + [Queues.PushAction(text)] + pops)
    ensures Queues.Pushes(before + [Queues.PushAction(text)] + pops) == Queues.Pushes(before) + 1
  {
    var push, none: seq<Queues.Action> := [Queues.PushAction(text)], [];
    PopsPushNothing(pops);
    PushesConcat(before, push);
    PushesConcat(before + push, pops);
    assert push[1..] == none;
  }

  /** After room() none of the three texts of a pass is refused, whatever the reader pops meanwhile. */
  lemma PassIsNeverRefused(stops: seq<Word>, m: Stops.Matcher, piece: Word, rest: Word, e: Queues.Execution,
                           pops1: seq<Queues.Action>, pops2: seq<Queues.Action>, pops3: seq<Queues.Action>)
    requires ShortStops(stops) && |m.pending| < Stops.MAX_STOP && |piece| <= PIECE && |rest| <= 3
    requires Queues.Valid(e.q) && Queues.HasRoom(e.q) && e.q.terminal.None?
    requires OnlyPops(pops1) && OnlyPops(pops2) && OnlyPops(pops3)
    ensures var (t1, t2, t3) := PassTexts(stops, m, piece, rest);
            var second := pops1 + [Queues.PushAction(t1)] + pops2;
            var third := second + [Queues.PushAction(t2)] + pops3;
            && !Queues.Refuses(Queues.Execute(e, pops1).q, t1)
            && !Queues.Refuses(Queues.Execute(e, second).q, t2)
            && !Queues.Refuses(Queues.Execute(e, third).q, t3)
  {
    var (t1, t2, t3) := PassTexts(stops, m, piece, rest);
    PassTextsFit(stops, m, piece, rest);
    PopsPushNothing(pops1);
    OneMorePush(pops1, t1, pops2);
    var second := pops1 + [Queues.PushAction(t1)] + pops2;
    OneMorePush(second, t2, pops3);
    Queues.RoomCoversThreePushes(e, pops1, t1);
    Queues.RoomCoversThreePushes(e, second, t2);
    Queues.RoomCoversThreePushes(e, second + [Queues.PushAction(t2)] + pops3, t3);
  }
}
