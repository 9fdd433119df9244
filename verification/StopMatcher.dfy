/**
 StopMatcher of src/server_text.h: it releases text as early as it can, but
 never any byte of a stop string, and it cuts the text at a stop.
 */
module StopMatchers {
  import opened Wrappers
  import opened Bytes
  import opened Unicode
  import opened Languages

  const MAX_STOPS := 4
  const MAX_STOP := 256
  const MAX_CHUNK := 8192

  // ----- occurrences -----

  predicate OccursAt(text: Word, stop: Word, p: nat) {
    p + |stop| <= |text| && text[p..p + |stop|] == stop
  }

  ghost predicate Contains(text: Word, stops: seq<Word>) {
    exists i, p: nat | 0 <= i < |stops| :: OccursAt(text, stops[i], p)
  }

  ghost predicate SomeAt(text: Word, stops: seq<Word>, p: nat) {
    exists i | 0 <= i < |stops| :: OccursAt(text, stops[i], p)
  }

  /** The position of the first occurrence of any stop. */
  ghost predicate IsFirst(text: Word, stops: seq<Word>, p: nat) {
    SomeAt(text, stops, p) && forall q: nat | q < p :: !SomeAt(text, stops, q)
  }

  /** The text up to its first stop. */
  ghost predicate IsCut(text: Word, stops: seq<Word>, cut: Word) {
    && cut <= text
    && if Contains(text, stops) then IsFirst(text, stops, |cut|) else cut == text
  }

  predicate AllNonempty(stops: seq<Word>) {
    forall i | 0 <= i < |stops| :: stops[i] != []
  }

  // ----- the matcher as functions -----

  /** std::string::find, from position p. */
  function FindFrom(text: Word, stop: Word, p: nat): (r: Option<nat>)
    ensures r.Some? ==> p <= r.value && OccursAt(text, stop, r.value)
    ensures forall q: nat | p <= q && (r.None? || q < r.value) :: !OccursAt(text, stop, q)
    decreases |text| - p
  {
    if p + |stop| > |text| then None
    else if OccursAt(text, stop, p) then Some(p)
    else FindFrom(text, stop, p + 1)
  }

  /** The earliest position of a stop, and the first listed stop found there. */
  function Earliest(text: Word, stops: seq<Word>): Option<(nat, Word)> {
    if stops == [] then None
    else
      var before := Earliest(text, stops[..|stops| - 1]);
      var last := stops[|stops| - 1];
      match FindFrom(text, last, 0)
      case None => before
      case Some(p) => if before.None? || p < before.value.0 then Some((p, last)) else before
  }

  /** A suffix of the text that is a prefix of the stop, but not all of it. */
  predicate IsHeld(text: Word, stop: Word, n: nat) {
    n <= |text| && n < |stop| && text[|text| - n..] == stop[..n]
  }

  /** The longest such suffix of at most n bytes. */
  function HeldFrom(text: Word, stop: Word, n: nat): (r: nat)
    requires n <= |text| && n < |stop|
    ensures r <= n
  {
    if n == 0 || text[|text| - n..] == stop[..n] then n else HeldFrom(text, stop, n - 1)
  }

  function HeldSuffix(text: Word, stop: Word): (r: nat)
    requires stop != []
    ensures r <= |text|
  {
    HeldFrom(text, stop, if |text| < |stop| - 1 then |text| else |stop| - 1)
  }

  function Hold(text: Word, stops: seq<Word>): (r: nat)
    requires AllNonempty(stops)
    ensures r <= |text|
  {
    if stops == [] then 0
    else
      var before := Hold(text, stops[..|stops| - 1]);
      var last := HeldSuffix(text, stops[|stops| - 1]);
      if last > before then last else before
  }

  datatype Matcher = Matcher(pending: Word, stopped: bool, matched: Word)

  const START := Matcher([], false, [])

  /** The matcher and the output after a push. */
  function Push(stops: seq<Word>, m: Matcher, text: Word): (Matcher, Word)
    requires AllNonempty(stops)
  {
    if m.stopped then (m, [])
    else
      var pending := m.pending + text;
      EarliestMeaning(pending, stops);
      match Earliest(pending, stops)
      case Some(found) => (Matcher([], true, found.1), pending[..found.0])
      case None =>
        var released := |pending| - Hold(pending, stops);
        (Matcher(pending[released..], false, m.matched), pending[..released])
  }

  function Finish(m: Matcher): Word {
    if m.stopped then [] else m.pending
  }

  /** All pushes in turn. */
  function Feed(stops: seq<Word>, m: Matcher, chunks: seq<Word>): (Matcher, Word)
    requires AllNonempty(stops)
    decreases |chunks|
  {
    if chunks == [] then (m, [])
    else
      var (next, out) := Push(stops, m, chunks[0]);
      var (last, more) := Feed(stops, next, chunks[1..]);
      (last, out + more)
  }

  /** Everything emitted for a whole input: all pushes, then Finish. */
  function Output(stops: seq<Word>, chunks: seq<Word>): Word
    requires AllNonempty(stops)
  {
    var (m, out) := Feed(stops, START, chunks);
    out + Finish(m)
  }

  lemma {:induction false} HeldIsLongest(text: Word, stop: Word, n: nat)
    requires n <= |text| && n < |stop|
    ensures IsHeld(text, stop, HeldFrom(text, stop, n))
    ensures forall m: nat | m <= n && IsHeld(text, stop, m) :: m <= HeldFrom(text, stop, n)
  {
    if n > 0 && text[|text| - n..] != stop[..n] {
      HeldIsLongest(text, stop, n - 1);
    } else if n == 0 {
      assert text[|text|..] == stop[..0];
    }
  }

  /** Enough is held for every stop. */
  lemma {:induction false} HoldCovers(text: Word, stops: seq<Word>, i: nat, m: nat)
    requires AllNonempty(stops) && i < |stops| && IsHeld(text, stops[i], m)
    ensures m <= Hold(text, stops)
    decreases |stops|
  {
    var s := stops[|stops| - 1];
    HeldIsLongest(text, s, if |text| < |s| - 1 then |text| else |s| - 1);
    if i < |stops| - 1 {
      HoldCovers(text, stops[..|stops| - 1], i, m);
    }
  }

  // ----- finding -----

  lemma {:induction false} EarliestMeaning(text: Word, stops: seq<Word>)
    ensures Earliest(text, stops).None? <==> !Contains(text, stops)
    ensures Earliest(text, stops).Some? ==>
              var (p, s) := Earliest(text, stops).value;
              IsFirst(text, stops, p) && s in stops && OccursAt(text, s, p) && p <= |text|
    ensures Earliest(text, stops).Some? ==>
              var (p, s) := Earliest(text, stops).value;
              exists i | 0 <= i < |stops| :: stops[i] == s && forall j | 0 <= j < i :: !OccursAt(text, stops[j], p)
    decreases |stops|
  {
    if stops != [] {
      var front, last := stops[..|stops| - 1], stops[|stops| - 1];
      EarliestMeaning(text, front);
      var before, found := Earliest(text, front), FindFrom(text, last, 0);
      forall p: nat ensures SomeAt(text, stops, p) <==> SomeAt(text, front, p) || OccursAt(text, last, p) {
        if i :| 0 <= i < |front| && OccursAt(text, front[i], p) {
          assert stops[i] == front[i];
        }
        assert OccursAt(text, last, p) ==> OccursAt(text, stops[|stops| - 1], p);
        if i :| 0 <= i < |stops| && OccursAt(text, stops[i], p) {
          assert i < |front| ==> front[i] == stops[i];
        }
      }
      ContainsSome(text, stops);
      ContainsSome(text, front);
      if before.Some? && Earliest(text, stops) == before {
        var (p, s) := before.value;
        var i :| 0 <= i < |front| && front[i] == s && forall j | 0 <= j < i :: !OccursAt(text, front[j], p);
        assert stops[i] == s && forall j | 0 <= j < i :: !OccursAt(text, stops[j], p);
      } else if found.Some? {
        var p := found.value;
        assert forall j | 0 <= j < |front| :: !OccursAt(text, stops[j], p) by {
          forall j | 0 <= j < |front| ensures !OccursAt(text, stops[j], p) {
            assert !SomeAt(text, front, p);
            assert front[j] == stops[j];
          }
        }
        assert stops[|stops| - 1] == last;
      }
    }
  }

  lemma ContainsSome(text: Word, stops: seq<Word>)
    ensures Contains(text, stops) <==> exists p: nat :: SomeAt(text, stops, p)
  {
    if i, p: nat :| 0 <= i < |stops| && OccursAt(text, stops[i], p) {
      assert SomeAt(text, stops, p);
    }
  }

  // ----- what the matcher knows -----

  /** Any stop that could still be completed by more text begins in the held part. */
  ghost predicate HoldsEnough(stops: seq<Word>, x: Word, held: nat) {
    forall i, n: nat | 0 <= i < |stops| && IsHeld(x, stops[i], n) :: n <= held
  }

  /** After input x and output e: nothing is lost, and no stop has been passed. */
  /** And no more than such a suffix is held. */
  ghost predicate HoldsNoMore(stops: seq<Word>, x: Word, held: nat) {
    held == 0 || exists i | 0 <= i < |stops| :: IsHeld(x, stops[i], held)
  }

  ghost predicate Tracks(stops: seq<Word>, m: Matcher, x: Word, e: Word) {
    if m.stopped then
      exists b: nat | b <= |x| :: StoppedAt(stops, m, x, e, b)
    else
      && e + m.pending == x && !Contains(x, stops)
      && HoldsEnough(stops, x, |m.pending|) && HoldsNoMore(stops, x, |m.pending|)
  }

  /** The output was cut at the first stop of the first b bytes. */
  ghost predicate StoppedAt(stops: seq<Word>, m: Matcher, x: Word, e: Word, b: nat)
    requires b <= |x|
  {
    && e <= x[..b]
    && IsFirst(x[..b], stops, |e|)
    && m.matched in stops
    && OccursAt(x[..b], m.matched, |e|)
  }

  lemma OccursShift(e: Word, v: Word, stop: Word, p: nat)
    ensures OccursAt(e + v, stop, |e| + p) <==> OccursAt(v, stop, p)
  {
    if p + |stop| <= |v| {
      assert (e + v)[|e| + p..|e| + p + |stop|] == v[p..p + |stop|];
    }
  }

  lemma OccursPrefix(x: Word, t: Word, stop: Word, p: nat)
    requires p + |stop| <= |x|
    ensures OccursAt(x + t, stop, p) <==> OccursAt(x, stop, p)
  {
    assert (x + t)[p..p + |stop|] == x[p..p + |stop|];
  }

  lemma PrefixStops(stops: seq<Word>, x: Word, t: Word)
    requires AllNonempty(stops)
    ensures forall p: nat :: SomeAt(x, stops, p) ==> p < |x| && SomeAt(x + t, stops, p)
  {
    forall p: nat | SomeAt(x, stops, p) ensures p < |x| && SomeAt(x + t, stops, p) {
      var i :| 0 <= i < |stops| && OccursAt(x, stops[i], p);
      OccursPrefix(x, t, stops[i], p);
    }
  }

  lemma SubSlice(x: Word, q: nat, n: nat, o: nat, m: nat)
    requires q + n <= |x| && o <= m <= n
    ensures x[q..q + n][o..m] == x[q + o..q + m]
  {
    var s := x[q..q + n];
    forall k | 0 <= k < m - o ensures s[o..m][k] == x[q + o..q + m][k] {
      assert s[o..m][k] == s[o + k] == x[q + o + k];
    }
  }

  /** A stop in longer input that ends in the new part begins in what is held. */
  lemma NewStopsBeginInHeld(stops: seq<Word>, x: Word, t: Word, held: nat, i: nat, p: nat)
    requires i < |stops| && held <= |x|
    requires HoldsEnough(stops, x, held) && !Contains(x, stops)
    requires OccursAt(x + t, stops[i], p)
    ensures p >= |x| - held
  {
    var s := stops[i];
    if p + |s| <= |x| {
      OccursPrefix(x, t, s, p);
    } else if p < |x| {
      var n := |x| - p;
      assert x[p..] == (x + t)[p..p + |s|][..n];
      assert IsHeld(x, s, n);
    }
  }

  /** Searching what is pending is searching the whole input. */
  lemma PendingIsEnough(stops: seq<Word>, e: Word, pending: Word, t: Word, p: nat)
    requires HoldsEnough(stops, e + pending, |pending|) && !Contains(e + pending, stops)
    ensures SomeAt(e + (pending + t), stops, p) <==> p >= |e| && SomeAt(pending + t, stops, p - |e|)
  {
    var x := e + pending;
    assert x + t == e + (pending + t);
    if i :| 0 <= i < |stops| && OccursAt(x + t, stops[i], p) {
      NewStopsBeginInHeld(stops, x, t, |pending|, i, p);
      OccursShift(e, pending + t, stops[i], p - |e|);
    }
    if p >= |e| {
      if i :| 0 <= i < |stops| && OccursAt(pending + t, stops[i], p - |e|) {
        OccursShift(e, pending + t, stops[i], p - |e|);
      }
    }
  }

  lemma ReleaseHoldsEnough(stops: seq<Word>, e: Word, pending: Word, t: Word)
    requires AllNonempty(stops)
    requires HoldsEnough(stops, e + pending, |pending|) && !Contains(e + pending, stops)
    ensures HoldsEnough(stops, e + (pending + t), Hold(pending + t, stops))
  {
    var x, v := e + pending, pending + t;
    assert x + t == e + v;
    forall i, n: nat | 0 <= i < |stops| && IsHeld(e + v, stops[i], n) ensures n <= Hold(v, stops) {
      if n > |v| {
        HeldBefore(x, t, stops[i], n);
      } else {
        assert v[|v| - n..] == (e + v)[|e + v| - n..];
        HoldCovers(v, stops, i, n);
      }
    }
  }

  lemma {:induction false} HoldIsHeld(text: Word, stops: seq<Word>)
    requires AllNonempty(stops)
    ensures HoldsNoMore(stops, text, Hold(text, stops))
    decreases |stops|
  {
    if stops != [] {
      var front, last := stops[..|stops| - 1], |stops| - 1;
      var n := Hold(text, stops);
      if n == HeldSuffix(text, stops[last]) {
        HeldIsLongest(text, stops[last], if |text| < |stops[last]| - 1 then |text| else |stops[last]| - 1);
      } else {
        HoldIsHeld(text, front);
        if n > 0 {
          var i :| 0 <= i < |front| && IsHeld(text, front[i], n);
          assert front[i] == stops[i];
        }
      }
    }
  }

  lemma ReleaseHoldsNoMore(stops: seq<Word>, e: Word, text: Word)
    requires AllNonempty(stops)
    ensures HoldsNoMore(stops, e + text, Hold(text, stops))
  {
    var n := Hold(text, stops);
    HoldIsHeld(text, stops);
    if n > 0 {
      var i :| 0 <= i < |stops| && IsHeld(text, stops[i], n);
      assert (e + text)[|e + text| - n..] == text[|text| - n..];
      assert IsHeld(e + text, stops[i], n);
    }
  }

  /** A suffix that reaches back before the last piece was held there too, as far as it went. */
  lemma HeldBefore(x: Word, t: Word, stop: Word, n: nat)
    requires IsHeld(x + t, stop, n) && n > |t|
    ensures IsHeld(x, stop, n - |t|)
  {
    var k := n - |t|;
    assert x[|x| - k..] == (x + t)[|x + t| - n..][..k] == stop[..k];
  }

  lemma StaysStopped(stops: seq<Word>, m: Matcher, x: Word, e: Word, t: Word)
    requires m.stopped && Tracks(stops, m, x, e)
    ensures Tracks(stops, m, x + t, e)
  {
    var b: nat :| b <= |x| && StoppedAt(stops, m, x, e, b);
    assert (x + t)[..b] == x[..b];
    assert StoppedAt(stops, m, x + t, e, b);
  }

  /** Every push keeps what the matcher knows. */
  lemma PushTracks(stops: seq<Word>, m: Matcher, x: Word, e: Word, t: Word)
    requires AllNonempty(stops) && Tracks(stops, m, x, e)
    ensures var (next, out) := Push(stops, m, t);
            Tracks(stops, next, x + t, e + out)
  {
    var (next, out) := Push(stops, m, t);
    if m.stopped {
      StaysStopped(stops, m, x, e, t);
      assert e + out == e;
    } else {
      var pending := m.pending + t;
      EarliestMeaning(pending, stops);
      assert x + t == e + pending;
      forall p: nat ensures SomeAt(e + pending, stops, p) <==> p >= |e| && SomeAt(pending, stops, p - |e|) {
        PendingIsEnough(stops, e, m.pending, t, p);
      }
      if next.stopped {
        var (p, s) := Earliest(pending, stops).value;
        var y := x + t;
        assert y[..|y|] == y;
        assert |e + out| == |e| + p;
        OccursShift(e, pending, s, p);
        assert e + out <= y;
        assert StoppedAt(stops, next, y, e + out, |y|);
      } else {
        ReleaseHoldsEnough(stops, e, m.pending, t);
        ReleaseHoldsNoMore(stops, e, pending);
        assert (e + out) + next.pending == e + pending;
        ContainsSome(e + pending, stops);
        ContainsSome(pending, stops);
        assert forall p: nat :: !SomeAt(pending, stops, p);
      }
    }
  }

  lemma {:induction false} FeedTracks(stops: seq<Word>, m: Matcher, x: Word, e: Word, chunks: seq<Word>)
    requires AllNonempty(stops) && Tracks(stops, m, x, e)
    ensures var (last, out) := Feed(stops, m, chunks);
            Tracks(stops, last, x + Flatten(chunks), e + out)
    decreases |chunks|
  {
    if chunks == [] {
      assert x + [] == x && e + [] == e;
    } else {
      var (next, out) := Push(stops, m, chunks[0]);
      PushTracks(stops, m, x, e, chunks[0]);
      FeedTracks(stops, next, x + chunks[0], e + out, chunks[1..]);
      var more := Feed(stops, next, chunks[1..]).1;
      Regroup(x, chunks[0], Flatten(chunks[1..]));
      Regroup(e, out, more);
    }
  }

  lemma Regroup(a: Word, b: Word, c: Word)
    ensures (a + b) + c == a + (b + c)
  {}

  lemma StartTracks(stops: seq<Word>)
    requires AllNonempty(stops)
    ensures Tracks(stops, START, [], [])
  {}

  /**
   What holds for every chunking: before a stop the output and the held text are
   the input, which contains no stop; at a stop the output is cut where a stop
   begins, the matched stop follows it in the input, and none is in the output;
   without one, Finish completes the input.
   */
  lemma MatcherIsFaithful(stops: seq<Word>, chunks: seq<Word>)
    requires AllNonempty(stops)
    ensures var (m, out) := Feed(stops, START, chunks);
            && !Contains(out, stops)
            && (!m.stopped ==> out + m.pending == Flatten(chunks) && !Contains(Flatten(chunks), stops)
                               && Output(stops, chunks) == Flatten(chunks))
            && (m.stopped ==> m.matched in stops && out + m.matched <= Flatten(chunks) && Output(stops, chunks) == out)
  {
    var (m, out) := Feed(stops, START, chunks);
    var x := Flatten(chunks);
    StartTracks(stops);
    FeedTracks(stops, START, [], [], chunks);
    assert [] + x == x && [] + out == out;
    if m.stopped {
      StoppedIsFaithful(stops, m, x, out);
      assert out + [] == out;
    } else {
      PrefixStops(stops, out, m.pending);
      ContainsSome(out, stops);
      ContainsSome(x, stops);
    }
  }

  /** n is the greatest number of last bytes that are a proper prefix of some stop. */
  ghost predicate IsLongestHeld(stops: seq<Word>, x: Word, n: nat) {
    && n <= |x|
    && (n == 0 || exists i | 0 <= i < |stops| :: IsHeld(x, stops[i], n))
    && forall i, k: nat | 0 <= i < |stops| && IsHeld(x, stops[i], k) :: k <= n
  }

  /** However the input came in chunks, an unstopped matcher holds exactly that many of its last bytes. */
  lemma PendingIsLongestHeld(stops: seq<Word>, chunks: seq<Word>)
    requires AllNonempty(stops) && !Feed(stops, START, chunks).0.stopped
    ensures var x, pending := Flatten(chunks), Feed(stops, START, chunks).0.pending;
            IsLongestHeld(stops, x, |pending|) && pending == x[|x| - |pending|..]
  {
    var (m, out) := Feed(stops, START, chunks);
    var x := Flatten(chunks);
    StartTracks(stops);
    FeedTracks(stops, START, [], [], chunks);
    assert [] + x == x && [] + out == out;
    assert out + m.pending == x;
  }

  lemma StoppedIsFaithful(stops: seq<Word>, m: Matcher, x: Word, out: Word)
    requires AllNonempty(stops) && Tracks(stops, m, x, out) && m.stopped
    ensures !Contains(out, stops) && m.matched in stops && out + m.matched <= x
  {
    var b: nat :| b <= |x| && StoppedAt(stops, m, x, out, b);
    var y := x[..b];
    assert out + m.matched == y[..|out| + |m.matched|];
    assert y == out + y[|out|..];
    PrefixStops(stops, out, y[|out|..]);
    ContainsSome(out, stops);
  }

  // ----- when chunking does not matter -----

  /**
   A stop hides inside another: it ends before the other does, and until then no
   stop is complete where the other begins.
   */
  ghost predicate Hides(stops: seq<Word>, i: nat, j: nat, o: nat) {
    && i < |stops| && j < |stops|
    && 1 <= o && o + |stops[j]| < |stops[i]|
    && OccursAt(stops[i], stops[j], o)
    && forall k | 0 <= k < |stops| :: !(stops[k] <= stops[i][..o + |stops[j]|])
  }

  ghost predicate SomeHidden(stops: seq<Word>) {
    exists i: nat, j: nat, o: nat :: Hides(stops, i, j, o)
  }

  ghost predicate Admitted(chunks: seq<Word>, maxChunk: nat) {
    forall k | 0 <= k < |chunks| :: |chunks[k]| <= maxChunk
  }

  /** Every admitted chunking of every input gives the input cut at its first stop. */
  ghost predicate OutputsAreCuts(stops: seq<Word>, maxChunk: nat)
    requires AllNonempty(stops)
  {
    forall chunks :: Admitted(chunks, maxChunk) ==> IsCut(Flatten(chunks), stops, Output(stops, chunks))
  }

  /** Any two admitted chunkings of one text give the same output. */
  ghost predicate ChunkingIsIrrelevant(stops: seq<Word>, maxChunk: nat)
    requires AllNonempty(stops)
  {
    forall a, b | Admitted(a, maxChunk) && Admitted(b, maxChunk) && Flatten(a) == Flatten(b) ::
      Output(stops, a) == Output(stops, b)
  }

  /** A prefix of the outer stop is complete where the outer one begins. */
  lemma PrefixOccurs(y: Word, x: Word, q: nat, n: nat, m: nat, stop: Word)
    requires y <= x && q + n <= |x| && m <= n && q + m <= |y|
    ensures stop <= x[q..q + n][..m] ==> OccursAt(y, stop, q)
  {
    if |stop| <= m {
      SubSlice(x, q, n, 0, |stop|);
      assert x[q..q + n][..m][..|stop|] == x[q..q + n][0..|stop|];
      assert y[q..q + |stop|] == x[q..q + |stop|];
    }
  }

  /** A stop that begins before the cut hides the one found there. */
  lemma EarlierStopHides(stops: seq<Word>, x: Word, y: Word, i: nat, j: nat, q: nat, p: nat)
    requires y <= x && i < |stops| && j < |stops| && q < p
    requires OccursAt(x, stops[i], q) && !SomeAt(y, stops, q) && OccursAt(y, stops[j], p)
    ensures Hides(stops, i, j, p - q)
  {
    var s := stops[i];
    var o, m := p - q, p - q + |stops[j]|;
    assert x == y + x[|y|..];
    OccursPrefixOrEnds(y, x[|y|..], stops, i, q);
    SubSlice(x, q, |s|, o, m);
    assert x[p..p + |stops[j]|] == y[p..p + |stops[j]|];
    forall k | 0 <= k < |stops| ensures !(stops[k] <= s[..m]) {
      PrefixOccurs(y, x, q, |s|, m, stops[k]);
    }
  }

  lemma CutIsFirst(stops: seq<Word>, x: Word, e: Word, b: nat)
    requires b <= |x| && e <= x[..b] && IsFirst(x[..b], stops, |e|)
    ensures IsCut(x, stops, e) || SomeHidden(stops)
  {
    var y := x[..b];
    assert x == y + x[b..];
    var j :| 0 <= j < |stops| && OccursAt(y, stops[j], |e|);
    OccursPrefix(y, x[b..], stops[j], |e|);
    assert SomeAt(x, stops, |e|);
    ContainsSome(x, stops);
    if q: nat, i :| q < |e| && 0 <= i < |stops| && OccursAt(x, stops[i], q) {
      EarlierStopHides(stops, x, y, i, j, q, |e|);
      assert Hides(stops, i, j, |e| - q);
    } else {
      assert forall q: nat | q < |e| :: !SomeAt(x, stops, q);
    }
  }

  lemma OccursPrefixOrEnds(y: Word, t: Word, stops: seq<Word>, i: nat, q: nat)
    requires i < |stops| && OccursAt(y + t, stops[i], q) && !SomeAt(y, stops, q)
    ensures q + |stops[i]| > |y|
  {
    if q + |stops[i]| <= |y| {
      OccursPrefix(y, t, stops[i], q);
    }
  }

  lemma CleanStopsCut(stops: seq<Word>, chunks: seq<Word>)
    requires AllNonempty(stops) && !SomeHidden(stops)
    ensures IsCut(Flatten(chunks), stops, Output(stops, chunks))
  {
    var (m, out) := Feed(stops, START, chunks);
    var x := Flatten(chunks);
    StartTracks(stops);
    FeedTracks(stops, START, [], [], chunks);
    assert [] + x == x && [] + out == out;
    if m.stopped {
      var b: nat :| b <= |x| && StoppedAt(stops, m, x, out, b);
      CutIsFirst(stops, x, out, b);
      assert out + [] == out;
    }
  }

  function Singles(w: Word): (chunks: seq<Word>)
    ensures |chunks| == |w| && forall k | 0 <= k < |w| :: chunks[k] == [w[k]]
  {
    seq(|w|, k requires 0 <= k < |w| => [w[k]])
  }

  lemma {:induction false} FlattenSingles(w: Word)
    ensures Flatten(Singles(w)) == w
  {
    if w != [] {
      assert Singles(w)[1..] == Singles(w[1..]);
      FlattenSingles(w[1..]);
    }
  }

  lemma {:induction false} FeedConcat(stops: seq<Word>, m: Matcher, a: seq<Word>, b: seq<Word>)
    requires AllNonempty(stops)
    ensures var (middle, out) := Feed(stops, m, a);
            var (last, more) := Feed(stops, middle, b);
            Feed(stops, m, a + b) == (last, out + more)
    decreases |a|
  {
    if a == [] {
      assert a + b == b;
      var (last, more) := Feed(stops, m, b);
      assert [] + more == more;
    } else {
      assert (a + b)[1..] == a[1..] + b;
      var (next, out) := Push(stops, m, a[0]);
      FeedConcat(stops, next, a[1..], b);
      var (middle, out') := Feed(stops, next, a[1..]);
      var more := Feed(stops, middle, b).1;
      assert out + (out' + more) == (out + out') + more;
    }
  }

  /** Input that has passed a stop, but begins with none, has been released in part. */
  lemma PassedStopReleases(stops: seq<Word>, a: Word, chunks: seq<Word>)
    requires AllNonempty(stops) && Flatten(chunks) == a && Contains(a, stops)
    requires forall k | 0 <= k < |stops| :: !(stops[k] <= a)
    ensures Feed(stops, START, chunks).1 != []
  {
    var (m, out) := Feed(stops, START, chunks);
    MatcherIsFaithful(stops, chunks);
    assert out + m.matched <= a;
    assert out == [] ==> out + m.matched == m.matched;
  }

  /** Fed at once, a stop is not released at all. */
  lemma StopAtOnce(stops: seq<Word>, i: nat)
    requires AllNonempty(stops) && i < |stops|
    ensures Flatten([stops[i]]) == stops[i] && Output(stops, [stops[i]]) == []
  {
    var s := stops[i];
    OnePush(stops, s);
    assert [] + s == s && OccursAt(s, s, 0);
    assert SomeAt(s, stops, 0);
    EarliestMeaning(s, stops);
    ContainsSome(s, stops);
    var (p, found) := Earliest(s, stops).value;
    assert p == 0;
  }

  lemma OnePush(stops: seq<Word>, w: Word)
    requires AllNonempty(stops)
    ensures Flatten([w]) == w && Feed(stops, START, [w]) == Push(stops, START, w)
  {
    var none: seq<Word> := [];
    assert [w][1..] == none && w + [] == w;
    var (m, out) := Push(stops, START, w);
    assert out + [] == out && Feed(stops, m, none) == (m, []);
  }

  /**
   Fed byte by byte, a stop that hides another is released in part: neither cut nor what comes of
   feeding it at once.
   */
  lemma HiddenStopLeaks(stops: seq<Word>, i: nat, j: nat, o: nat)
    requires AllNonempty(stops) && Hides(stops, i, j, o)
    ensures !IsCut(stops[i], stops, Output(stops, Singles(stops[i])))
    ensures Flatten(Singles(stops[i])) == Flatten([stops[i]]) &&
              Output(stops, Singles(stops[i])) != Output(stops, [stops[i]])
  {
    var s := stops[i];
    var b := o + |stops[j]|;
    assert s[..b][o..b] == s[o..b];
    assert OccursAt(s[..b], stops[j], o);
    FlattenSingles(s[..b]);
    FlattenSingles(s);
    PassedStopReleases(stops, s[..b], Singles(s[..b]));
    assert Singles(s) == Singles(s[..b]) + Singles(s[b..]);
    FeedConcat(stops, START, Singles(s[..b]), Singles(s[b..]));
    assert Output(stops, Singles(s)) != [];
    StopAtOnce(stops, i);
    assert s[0..|s|] == s && OccursAt(s, s, 0);
    assert SomeAt(s, stops, 0);
    ContainsSome(s, stops);
  }

  /** Every output is the cut exactly when no stop hides inside another. */
  lemma OutputsAreCutsIffNoneHides(stops: seq<Word>, maxChunk: nat)
    requires AllNonempty(stops) && maxChunk >= 1
    ensures OutputsAreCuts(stops, maxChunk) <==> !SomeHidden(stops)
  {
    if i: nat, j: nat, o: nat :| Hides(stops, i, j, o) {
      HiddenStopLeaks(stops, i, j, o);
      FlattenSingles(stops[i]);
      assert Admitted(Singles(stops[i]), maxChunk);
    } else {
      forall chunks | Admitted(chunks, maxChunk) ensures IsCut(Flatten(chunks), stops, Output(stops, chunks)) {
        CleanStopsCut(stops, chunks);
      }
    }
  }

  lemma CutIsUnique(text: Word, stops: seq<Word>, a: Word, b: Word)
    requires IsCut(text, stops, a) && IsCut(text, stops, b)
    ensures a == b
  {
    assert a == text[..|a|] && b == text[..|b|];
  }

  /**
   The output is independent of the chunking exactly when no stop hides inside
   another, for a chunk limit that admits every stop as one chunk. A caller can
   check both before constructing the matcher.
   */
  lemma ChunkingIsIrrelevantIffNoneHides(stops: seq<Word>, maxChunk: nat)
    requires AllNonempty(stops) && forall k | 0 <= k < |stops| :: |stops[k]| <= maxChunk
    ensures ChunkingIsIrrelevant(stops, maxChunk) <==> !SomeHidden(stops)
  {
    if i: nat, j: nat, o: nat :| Hides(stops, i, j, o) {
      HiddenStopLeaks(stops, i, j, o);
      assert Admitted(Singles(stops[i]), maxChunk) && Admitted([stops[i]], maxChunk);
    } else {
      forall a, b | Admitted(a, maxChunk) && Admitted(b, maxChunk) && Flatten(a) == Flatten(b)
        ensures Output(stops, a) == Output(stops, b)
      {
        CleanStopsCut(stops, a);
        CleanStopsCut(stops, b);
        CutIsUnique(Flatten(a), stops, Output(stops, a), Output(stops, b));
      }
    }
  }

  /**
   The stops "abcd" and "bc" on the text "abcd": "a" comes out when "abc" is pushed first, nothing
   when it is pushed at once.
   */
  lemma HiddenStopExample()
    ensures var stops: seq<Word> := [[97, 98, 99, 100], [98, 99]];
            && AllNonempty(stops) && SomeHidden(stops)
            && Flatten([[97, 98, 99], [100]]) == Flatten([[97, 98, 99, 100]])
            && Output(stops, [[97, 98, 99], [100]]) == [97] && Output(stops, [[97, 98, 99, 100]]) == []
  {
    var stops: seq<Word> := [[97, 98, 99, 100], [98, 99]];
    var abc, d, abcd: Word := [97, 98, 99], [100], [97, 98, 99, 100];
    assert OccursAt(stops[0], stops[1], 1);
    assert stops[0][..3] == abc && stops[1][0] == 98;
    assert Hides(stops, 0, 1, 1);
    StopAtOnce(stops, 0);
    var none: seq<Word> := [];
    assert [abc, d][1..] == [d] && [d][1..] == none && d + [] == d && abc + d == abcd;
    BcInAbc(stops, abc);
    var m := Push(stops, START, abc).0;
    assert Push(stops, START, abc).1 == [97] && m.stopped;
    assert Feed(stops, m, [d]) == (m, []) && [97] + [] == [97];
  }

  lemma BcInAbc(stops: seq<Word>, abc: Word)
    requires stops == [[97, 98, 99, 100], [98, 99]] && abc == [97, 98, 99]
    ensures AllNonempty(stops) && Push(stops, START, abc).0.stopped && Push(stops, START, abc).1 == [97]
  {
    assert [] + abc == abc;
    EarliestMeaning(abc, stops);
    BcBeginsAtOne(stops, abc);
    ContainsSome(abc, stops);
    assert abc[..1] == [97];
  }

  lemma BcBeginsAtOne(stops: seq<Word>, abc: Word)
    requires stops == [[97, 98, 99, 100], [98, 99]] && abc == [97, 98, 99]
    ensures SomeAt(abc, stops, 1) && !SomeAt(abc, stops, 0)
  {
    assert abc[1..3] == stops[1] && OccursAt(abc, stops[1], 1);
    assert abc[0..2][0] == 97;
  }

  // ----- the class -----

  datatype StopError = LimitsExceeded | ChunkTooLong

  predicate AdmissibleStops(stops: seq<Word>, maxChunk: nat) {
    && 1 <= maxChunk <= MAX_CHUNK
    && |stops| <= MAX_STOPS
    && forall i | 0 <= i < |stops| :: stops[i] != [] && |stops[i]| <= MAX_STOP && WellFormed(stops[i])
  }

  class StopMatcher {
    var stops: seq<Word>
    var maxChunk: nat
    var pending: Word
    var stopped: bool
    var matched: Word

    ghost predicate Valid()
      reads this
    {
      AdmissibleStops(stops, maxChunk)
    }

    function Value(): Matcher
      reads this
    {
      Matcher(pending, stopped, matched)
    }

    constructor (stops: seq<Word>, maxChunk: nat)
      requires AdmissibleStops(stops, maxChunk)
      ensures Valid() && Value() == START && this.stops == stops && this.maxChunk == maxChunk
    {
      this.stops := stops;
      this.maxChunk := maxChunk;
      pending := [];
      stopped := false;
      matched := [];
    }

    /** The constructor's checks: it throws on any other stops or chunk size. */
    static method Create(stops: seq<Word>, maxChunk: nat) returns (r: Result<StopMatcher, StopError>)
      ensures r.Success? <==> AdmissibleStops(stops, maxChunk)
      ensures r.Success? ==> fresh(r.value) && r.value.Valid() && r.value.Value() == START
      ensures r.Success? ==> r.value.stops == stops && r.value.maxChunk == maxChunk
      ensures r.Failure? ==> r.error == LimitsExceeded
    {
      if maxChunk < 1 || maxChunk > MAX_CHUNK || |stops| > MAX_STOPS {
        return Failure(LimitsExceeded);
      }
      var i := 0;
      while i < |stops|
        invariant 0 <= i <= |stops|
        invariant forall k | 0 <= k < i :: stops[k] != [] && |stops[k]| <= MAX_STOP && WellFormed(stops[k])
      {
        if stops[i] == [] || |stops[i]| > MAX_STOP || !WellFormed(stops[i]) {
          return Failure(LimitsExceeded);
        }
        i := i + 1;
      }
      var m := new StopMatcher(stops, maxChunk);
      return Success(m);
    }

    method LongestHeld(text: Word, pattern: Word) returns (n: nat)
      requires pattern != []
      ensures n == HeldSuffix(text, pattern)
    {
      n := if |text| < |pattern| - 1 then |text| else |pattern| - 1;
      while n > 0
        invariant n <= |text| && n < |pattern|
        invariant HeldFrom(text, pattern, n) == HeldSuffix(text, pattern)
      {
        if text[|text| - n..] == pattern[..n] {
          return;
        }
        n := n - 1;
      }
    }

    method PushText(text: Word) returns (r: Result<Word, StopError>)
      requires Valid()
      modifies `pending, `stopped, `matched
      ensures r.Failure? <==> !old(stopped) && |text| > maxChunk
      ensures r.Failure? ==> r.error == ChunkTooLong && Value() == old(Value())
      ensures r.Success? ==> (Value(), r.value) == Push(stops, old(Value()), text)
    {
      if stopped {
        return Success([]);
      }
      if |text| > maxChunk {
        return Failure(ChunkTooLong);
      }
      pending := pending + text;
      var found := FirstStop();
      if found.Some? {
        var output := pending[..found.value.0];
        matched := found.value.1;
        pending := [];
        stopped := true;
        return Success(output);
      }
      var output := Release();
      return Success(output);
    }

    /** Hands out all but the longest suffix that may begin a stop. */
    method Release() returns (output: Word)
      requires Valid()
      modifies `pending
      ensures var released := |old(pending)| - Hold(old(pending), stops);
              output == old(pending)[..released] && pending == old(pending)[released..]
    {
      var hold := LongestHold();
      var released := |pending| - hold;
      output := pending[..released];
      pending := pending[released..];
    }

    /** The search of `Push`: a later stop wins only by an earlier position. */
    method FirstStop() returns (first: Option<(nat, Word)>)
      ensures first == Earliest(pending, stops)
      ensures first.Some? ==> first.value.0 <= |pending|
    {
      EarliestMeaning(pending, stops);
      first := None;
      var i := 0;
      while i < |stops|
        invariant 0 <= i <= |stops|
        invariant first == Earliest(pending, stops[..i])
      {
        assert stops[..i + 1][..i] == stops[..i];
        var position := FindFrom(pending, stops[i], 0);
        if position.Some? && (first.None? || position.value < first.value.0) {
          first := Some((position.value, stops[i]));
        }
        i := i + 1;
      }
      assert stops[..|stops|] == stops;
    }

    method LongestHold() returns (hold: nat)
      requires Valid()
      ensures hold == Hold(pending, stops)
    {
      hold := 0;
      var i := 0;
      while i < |stops|
        invariant 0 <= i <= |stops|
        invariant hold == Hold(pending, stops[..i])
      {
        assert stops[..i + 1][..i] == stops[..i];
        var held := LongestHeld(pending, stops[i]);
        hold := if held > hold then held else hold;
        i := i + 1;
      }
      assert stops[..|stops|] == stops;
    }

    method FinishText() returns (output: Word)
      modifies `pending
      ensures output == Finish(old(Value())) && pending == []
    {
      output := [];
      if !stopped {
        output := pending;
      }
      pending := [];
    }
  }
}
