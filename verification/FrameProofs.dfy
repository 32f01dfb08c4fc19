/**
 What the streaming decoder guarantees on every byte stream: it computes the batch parser exactly, encoding
 and decoding undo each other, it resynchronizes within a fixed number of bytes, and it accepts a corrupted
 frame exactly when the error pattern has residue zero.
 */
module FrameProofs {
  import opened Basics
  import opened Crc16
  import opened CrcErrors
  import opened FrameModel

  // ------------------------------------------------------------------ streams compose

  lemma {:induction false} AfterAppends(d: Decoder, s: Bytes, t: Bytes)
    requires Valid(d)
    ensures After(d, s + t) == After(After(d, s), t)
  {
    hide Push, Valid;
    if t == [] {
      assert s + t == s;
    } else {
      AfterAppends(d, s, t[..|t| - 1]);
      assert (s + t)[..|s + t| - 1] == s + t[..|t| - 1];
    }
  }

  lemma Associates(a: seq<Outcome>, b: seq<Outcome>, c: seq<Outcome>)
    ensures (a + b) + c == a + (b + c)
  {
  }

  lemma NothingObserved(d: Decoder)
    requires Valid(d)
    ensures Observe(d, []) == [] && After(d, []) == d
  {
  }

  lemma ObserveSnoc(d: Decoder, s: Bytes, b: bv8)
    requires Valid(d)
    ensures Observe(d, s + [b]) == Observe(d, s) + [Seen(Push(After(d, s), b))]
  {
    hide Push, Seen, Valid, After;
    assert (s + [b])[..|s|] == s;
  }

  lemma {:induction false} ObserveAppends(d: Decoder, s: Bytes, t: Bytes)
    requires Valid(d)
    ensures Observe(d, s + t) == Observe(d, s) + Observe(After(d, s), t)
  {
    hide Push, Seen, Valid, After, Observe;
    if t == [] {
      assert s + t == s;
      NothingObserved(After(d, s));
    } else {
      var u, b := t[..|t| - 1], t[|t| - 1];
      ObserveAppends(d, s, u);
      AfterAppends(d, s, u);
      assert (s + t)[..|s + t| - 1] == s + u;
      var last := [Seen(Push(After(d, s + u), b))];
      ObserveSnoc(d, s + u, b);
      ObserveSnoc(After(d, s), u, b);
      assert s + t == (s + u) + [b] && t == u + [b];
      Associates(Observe(d, s), Observe(After(d, s), u), last);
    }
  }

  // ------------------------------------------------------------------ one candidate

  /** Whether a candidate that starts with these bytes is still incomplete. */
  predicate Pending(s: Bytes, capacity: nat) {
    |s| < 4 || (Length(s[2], s[3]) <= capacity && |s| < Length(s[2], s[3]) + OVERHEAD)
  }

  /** The decoder is in the middle of the candidate whose bytes, from its magic byte on, are `seen`. */
  ghost predicate Assembling(d: Decoder, seen: Bytes) {
    && Valid(d) && Pending(seen, |d.storage|) && |seen| > 0 && seen[0] == MAGIC
    && (|seen| > 1 ==> d.sourceId == seen[1])
    && (|seen| > 2 ==> d.lengthHigh == seen[2])
    && (|seen| > 3 ==> d.length == Length(seen[2], seen[3]))
    && match d.state
       case WaitingForMagic => false
       case ReadingSourceNodeId => |seen| == 1 && d.crc == INITIAL
       case ReadingLengthHighByte => |seen| == 2 && d.crc == Fold(INITIAL, seen[1..])
       case ReadingLengthLowByte => |seen| == 3 && d.crc == Fold(INITIAL, seen[1..])
       case ReadingPayload => |seen| == 4 + d.index && d.storage[..d.index] == seen[4..] && d.crc == Fold(INITIAL, seen[1..])
       case ReadingCrcHighByte =>
         |seen| == 4 + d.length && d.storage[..d.length] == seen[4..] && d.crc == Fold(INITIAL, seen[1..])
       case ReadingCrcLowByte =>
         && |seen| == 5 + d.length && d.storage[..d.length] == seen[4..|seen| - 1]
         && d.crcHigh == seen[|seen| - 1] && d.crc == Fold(INITIAL, seen[1..|seen| - 1])
  }

  lemma FoldSnoc(crc: bv16, s: Bytes, b: bv8)
    ensures Fold(crc, s + [b]) == FoldByte(Fold(crc, s), b)
  {
    hide FoldByte;
    assert (s + [b])[..|s|] == s;
  }

  /** What one byte does to a candidate: it stays pending in silence, or it is judged and the decoder is free. */
  ghost predicate Advances(d: Decoder, seen: Bytes, b: bv8)
    requires Valid(d)
  {
    var r, t := Push(d, b), seen + [b];
    if Pending(t, |d.storage|) then Assembling(r.0, t) && Seen(r) == Quiet
    else
      && |t| >= 4 && r.0.state.WaitingForMagic?
      && if Length(t[2], t[3]) > |d.storage| then |t| == 4 && Seen(r) == Rejected
         else |t| == Length(t[2], t[3]) + OVERHEAD && Seen(r) == Verdict(t)
  }

  lemma HeaderStep(d: Decoder, seen: Bytes, b: bv8)
    requires Assembling(d, seen) && |seen| < 3
    ensures Advances(d, seen, b)
  {
    hide Fold, FoldByte, Word, Length, Verdict;
    assert (seen + [b])[1..] == seen[1..] + [b];
    FoldSnoc(INITIAL, seen[1..], b);
    FoldEmpty(INITIAL);
    assert |seen| == 1 ==> seen[1..] == [];
  }

  lemma LengthStep(d: Decoder, seen: Bytes, b: bv8)
    requires Assembling(d, seen) && |seen| == 3
    ensures Advances(d, seen, b)
  {
    hide Fold, FoldByte, Word, Length, Verdict;
    assert d.state.ReadingLengthLowByte?;
    assert (seen + [b])[1..] == seen[1..] + [b];
    FoldSnoc(INITIAL, seen[1..], b);
    assert (seen + [b])[4..] == [];
  }

  lemma PayloadStep(d: Decoder, seen: Bytes, b: bv8)
    requires Assembling(d, seen) && d.state.ReadingPayload?
    ensures Advances(d, seen, b)
  {
    hide Fold, FoldByte, Word, Length, Verdict;
    var t := seen + [b];
    assert t[1..] == seen[1..] + [b];
    FoldSnoc(INITIAL, seen[1..], b);
    assert d.storage[d.index := b][..d.index + 1] == t[4..];
  }

  lemma ChecksumStep(d: Decoder, seen: Bytes, b: bv8)
    requires Assembling(d, seen) && (d.state.ReadingCrcHighByte? || d.state.ReadingCrcLowByte?)
    ensures Advances(d, seen, b)
  {
    hide Fold, FoldByte, Word, Length;
    var t := seen + [b];
    if d.state.ReadingCrcHighByte? {
      assert t[1..|t| - 1] == seen[1..] && t[4..|t| - 1] == seen[4..];
    } else {
      assert t[1..|t| - 2] == seen[1..|seen| - 1] && t[4..|t| - 2] == seen[4..|seen| - 1];
    }
  }

  lemma CandidateStep(d: Decoder, seen: Bytes, b: bv8)
    requires Assembling(d, seen)
    ensures Advances(d, seen, b)
  {
    hide Advances, Fold;
    if |seen| < 3 { HeaderStep(d, seen, b); }
    else if |seen| == 3 { LengthStep(d, seen, b); }
    else if d.state.ReadingPayload? { PayloadStep(d, seen, b); }
    else { ChecksumStep(d, seen, b); }
  }

  /** A candidate that is still pending has produced nothing yet, and the decoder holds exactly its bytes. */
  lemma {:induction false} PendingIsQuiet(d: Decoder, s: Bytes)
    requires Valid(d) && d.state.WaitingForMagic? && s != [] && s[0] == MAGIC && Pending(s, |d.storage|)
    ensures Assembling(After(d, s), s) && Observe(d, s) == Silent(|s|)
  {
    hide Assembling, Fold, Length, Word;
    var u, b := s[..|s| - 1], s[|s| - 1];
    if u == [] {
      MagicArms(d);
      assert s == [MAGIC];
    } else {
      PendingIsQuiet(d, u);
      CandidateStep(After(d, u), u, b);
      assert s == u + [b];
    }
  }

  lemma MagicArms(d: Decoder)
    requires Valid(d) && d.state.WaitingForMagic?
    ensures Assembling(Push(d, MAGIC).0, [MAGIC]) && Seen(Push(d, MAGIC)) == Quiet
  {
  }

  lemma FoldEmpty(crc: bv16)
    ensures Fold(crc, []) == crc
  {
  }

  // ------------------------------------------------------------------ the decoder is the parser

  /** A candidate that has just become complete is judged at its last byte, and the decoder is free again. */
  lemma CompleteIsJudged(d: Decoder, s: Bytes)
    requires Valid(d) && d.state.WaitingForMagic? && |s| >= 4 && s[0] == MAGIC
    requires Pending(s[..|s| - 1], |d.storage|) && !Pending(s, |d.storage|)
    ensures After(d, s).state.WaitingForMagic?
    ensures if Length(s[2], s[3]) > |d.storage| then |s| == 4 && Observe(d, s) == Silent(3) + [Rejected]
            else |s| == Length(s[2], s[3]) + OVERHEAD && Observe(d, s) == Silent(|s| - 1) + [Verdict(s)]
  {
    hide Assembling, Pending, Fold, Length, Verdict;
    var u, b := s[..|s| - 1], s[|s| - 1];
    assert s == u + [b];
    PendingIsQuiet(d, u);
    CandidateStep(After(d, u), u, b);
  }

  /** On every byte stream the streaming decoder says exactly what the batch parser says, byte for byte. */
  lemma {:induction false} DecoderComputesParser(d: Decoder, s: Bytes)
    requires Valid(d) && d.state.WaitingForMagic?
    ensures Observe(d, s) == Parse(s, |d.storage|)
    decreases |s|
  {
    hide Fold, Length, Verdict, Assembling, Observe, After, Push, Valid;
    if s == [] {
      NothingObserved(d);
    } else if s[0] != MAGIC {
      OtherBytesAreDropped(d, s[0]);
      assert s[..1] == [s[0]];
      SplitAndParse(d, s, 1);
    } else if Pending(s, |d.storage|) {
      PendingIsQuiet(d, s);
    } else {
      var n := if Length(s[2], s[3]) > |d.storage| then 4 else Length(s[2], s[3]) + OVERHEAD;
      assert s[..n][..n - 1] == s[..n - 1];
      CompleteIsJudged(d, s[..n]);
      SplitAndParse(d, s, n);
    }
  }

  lemma OtherBytesAreDropped(d: Decoder, b: bv8)
    requires Valid(d) && d.state.WaitingForMagic? && b != MAGIC
    ensures After(d, [b]) == d && Observe(d, [b]) == [Quiet]
  {
    assert [b][..0] == [];
  }

  lemma {:induction false} SplitAndParse(d: Decoder, s: Bytes, n: nat)
    requires Valid(d) && 0 < n <= |s| && After(d, s[..n]).state.WaitingForMagic?
    ensures Observe(d, s) == Observe(d, s[..n]) + Parse(s[n..], |d.storage|)
    decreases |s|, 0
  {
    hide Observe, Parse;
    assert s == s[..n] + s[n..];
    ObserveAppends(d, s[..n], s[n..]);
    DecoderComputesParser(After(d, s[..n]), s[n..]);
  }

  // ------------------------------------------------------------------ encoding and decoding

  lemma WordOfHalves(w: bv16)
    ensures Word(High(w), Low(w)) == w
  {
    WordRoundTrip(w, 0, 0);
  }

  lemma LengthOfHalves(n: nat)
    requires n <= MAX_LENGTH
    ensures Length(High(WordOf(n)), Low(WordOf(n))) == n
  {
    hide Word, High, Low, WordOf;
    WordOfHalves(WordOf(n));
    WordOfIsExact(n);
  }

  /** An encoded frame is one complete, intact candidate that carries its arguments. */
  lemma EncodingIsIntact(id: bv8, payload: Bytes)
    requires |payload| <= MAX_LENGTH
    ensures var s := Encode(id, payload);
            s[0] == MAGIC && Length(s[2], s[3]) == |payload| && Intact(s) && Verdict(s) == Frame(id, payload)
  {
    hide Fold, Word, High, Low, Length, WordOf;
    var s, crc := Encode(id, payload), Fold(INITIAL, Covered(id, payload));
    LengthOfHalves(|payload|);
    assert s[1..|s| - 2] == Covered(id, payload) && s[4..|s| - 2] == payload;
    WordOfHalves(crc);
  }

  lemma HalvesOfLength(high: bv8, low: bv8)
    ensures var n := WordOf(Length(high, low)); High(n) == high && Low(n) == low
  {
    hide High, Low, Word;
    BackToWord(Word(high, low));
    WordRoundTrip(0, high, low);
  }

  lemma Reassembles(s: Bytes)
    requires |s| >= OVERHEAD
    ensures s == [s[0]] + ([s[1], s[2], s[3]] + s[4..|s| - 2]) + [s[|s| - 2], s[|s| - 1]]
    ensures s[1..|s| - 2] == [s[1], s[2], s[3]] + s[4..|s| - 2]
  {
  }

  /** A candidate the parser accepts is, byte for byte, the encoding of what it reports. */
  lemma AcceptedIsEncoding(s: Bytes)
    requires |s| >= OVERHEAD && s[0] == MAGIC && |s| == Length(s[2], s[3]) + OVERHEAD && Intact(s)
    ensures s == Encode(s[1], s[4..|s| - 2])
  {
    hide Fold, Word, High, Low, Length, WordOf;
    HalvesOfLength(s[2], s[3]);
    WordRoundTrip(0, s[|s| - 2], s[|s| - 1]);
    Reassembles(s);
  }

  datatype Message = Message(id: bv8, payload: Bytes)

  function EncodeAll(ms: seq<Message>): Bytes
    requires forall k :: 0 <= k < |ms| ==> |ms[k].payload| <= MAX_LENGTH
  {
    if ms == [] then [] else Encode(ms[0].id, ms[0].payload) + EncodeAll(ms[1..])
  }

  /** The outcomes a receiver should see for a run of frames: each one complete at its own last byte. */
  function Deliveries(ms: seq<Message>): seq<Outcome> {
    if ms == [] then []
    else Silent(|ms[0].payload| + OVERHEAD - 1) + [Frame(ms[0].id, ms[0].payload)] + Deliveries(ms[1..])
  }

  lemma ParseFrame(id: bv8, payload: Bytes, rest: Bytes, capacity: nat)
    requires |payload| <= capacity && |payload| <= MAX_LENGTH
    ensures Parse(Encode(id, payload) + rest, capacity)
         == Silent(|payload| + OVERHEAD - 1) + [Frame(id, payload)] + Parse(rest, capacity)
  {
    hide Fold, Word, High, Low, Length, Verdict, Encode;
    var e := Encode(id, payload);
    EncodingIsIntact(id, payload);
    assert (e + rest)[..|e|] == e && (e + rest)[|e|..] == rest;
  }

  /** Any concatenation of encoded frames decodes to exactly that run of frames. */
  lemma {:induction false} RoundTrip(d: Decoder, ms: seq<Message>)
    requires Valid(d) && d.state.WaitingForMagic?
    requires forall k :: 0 <= k < |ms| ==> |ms[k].payload| <= |d.storage| && |ms[k].payload| <= MAX_LENGTH
    ensures Observe(d, EncodeAll(ms)) == Deliveries(ms)
  {
    hide Observe, Encode;
    DecoderComputesParser(d, EncodeAll(ms));
    ParseAll(ms, |d.storage|);
  }

  lemma {:induction false} ParseAll(ms: seq<Message>, capacity: nat)
    requires forall k :: 0 <= k < |ms| ==> |ms[k].payload| <= capacity && |ms[k].payload| <= MAX_LENGTH
    ensures Parse(EncodeAll(ms), capacity) == Deliveries(ms)
  {
    hide Encode;
    if ms != [] {
      ParseFrame(ms[0].id, ms[0].payload, EncodeAll(ms[1..]), capacity);
      ParseAll(ms[1..], capacity);
    }
  }

  /** Every frame a parser reports is the encoding of that frame, ending at the byte that reported it. */
  lemma {:induction false} ReportedFramesWereSent(s: Bytes, capacity: nat, k: nat)
    requires k < |s| && Parse(s, capacity)[k].Frame?
    ensures var f := Parse(s, capacity)[k];
            |f.payload| <= MAX_LENGTH && |f.payload| <= capacity && |f.payload| + OVERHEAD <= k + 1
            && s[k + 1 - |f.payload| - OVERHEAD..k + 1] == Encode(f.id, f.payload)
    decreases |s|
  {
    hide Fold, Word, Length, Encode, Verdict;
    var f := Parse(s, capacity)[k];
    if s[0] != MAGIC {
      LaterFramesWereSent(s, capacity, k, 1);
    } else {
      var n := Length(s[2], s[3]);
      if n > capacity {
        LaterFramesWereSent(s, capacity, k, 4);
      } else if k == n + OVERHEAD - 1 {
        JudgedFrameWasSent(s[..k + 1]);
      } else {
        LaterFramesWereSent(s, capacity, k, n + OVERHEAD);
      }
    }
  }

  lemma JudgedFrameWasSent(s: Bytes)
    requires |s| >= OVERHEAD && s[0] == MAGIC && |s| == Length(s[2], s[3]) + OVERHEAD && Verdict(s).Frame?
    ensures var f := Verdict(s); |f.payload| == |s| - OVERHEAD <= MAX_LENGTH && s == Encode(f.id, f.payload)
  {
    hide Fold, Word, Length, Encode;
    AcceptedIsEncoding(s);
  }

  lemma {:induction false} LaterFramesWereSent(s: Bytes, capacity: nat, k: nat, n: nat)
    requires 0 < n <= k < |s| && Parse(s, capacity)[k].Frame?
    requires Parse(s, capacity)[n..] == Parse(s[n..], capacity)
    ensures var f := Parse(s, capacity)[k];
            |f.payload| <= MAX_LENGTH && |f.payload| <= capacity && |f.payload| + OVERHEAD <= k + 1
            && s[k + 1 - |f.payload| - OVERHEAD..k + 1] == Encode(f.id, f.payload)
    decreases |s|, 0
  {
    hide Encode, Parse;
    var f := Parse(s, capacity)[k];
    assert f == Parse(s, capacity)[n..][k - n];
    ReportedFramesWereSent(s[n..], capacity, k - n);
    var m := |f.payload| + OVERHEAD;
    assert s[n..][k - n + 1 - m..k - n + 1] == s[k + 1 - m..k + 1];
  }

  /** A frame the decoder hands out is exactly what the last bytes of the stream encode. */
  lemma FrameReadyMeansSent(d: Decoder, s: Bytes, k: nat)
    requires Valid(d) && d.state.WaitingForMagic? && k < |s| && Observe(d, s)[k].Frame?
    ensures var f := Observe(d, s)[k];
            |f.payload| <= MAX_LENGTH && |f.payload| <= |d.storage| && |f.payload| + OVERHEAD <= k + 1
            && s[k + 1 - |f.payload| - OVERHEAD..k + 1] == Encode(f.id, f.payload)
  {
    hide Observe, Parse, Encode;
    DecoderComputesParser(d, s);
    ReportedFramesWereSent(s, |d.storage|, k);
  }

  // ------------------------------------------------------------------ resynchronization

  /** An upper bound on the bytes a decoder still consumes before it looks for a magic byte again. */
  function ToGo(d: Decoder): nat
    requires Valid(d)
  {
    match d.state
    case WaitingForMagic => 0
    case ReadingSourceNodeId => |d.storage| + 5
    case ReadingLengthHighByte => |d.storage| + 4
    case ReadingLengthLowByte => |d.storage| + 3
    case ReadingPayload => d.length - d.index + 2
    case ReadingCrcHighByte => 2
    case ReadingCrcLowByte => 1
  }

  lemma EveryByteIsProgress(d: Decoder, b: bv8)
    requires Valid(d)
    ensures !d.state.WaitingForMagic? ==> ToGo(Push(d, b).0) < ToGo(d)
    ensures d.state.WaitingForMagic? && b != MAGIC ==> Push(d, b).0 == d
    ensures ToGo(d) <= |d.storage| + 5
  {
    hide FoldByte, Length, Word;
  }

  /** Bytes without a magic byte bring any decoder back to waiting once there are enough of them. */
  lemma {:induction false} NoiseFrees(d: Decoder, noise: Bytes)
    requires Valid(d) && MAGIC !in noise
    ensures ToGo(After(d, noise)) + |noise| <= ToGo(d) || After(d, noise).state.WaitingForMagic?
  {
    hide ToGo, Push;
    if noise != [] {
      var u, b := noise[..|noise| - 1], noise[|noise| - 1];
      NoiseFrees(d, u);
      assert b in noise;
      EveryByteIsProgress(After(d, u), b);
      WaitingHasNothingToGo(After(d, noise));
    }
  }

  lemma WaitingHasNothingToGo(d: Decoder)
    requires Valid(d)
    ensures ToGo(d) == 0 <==> d.state.WaitingForMagic?
  {
  }

  /** From every decoder state the decoder is waiting for a magic byte again within capacity + 5 bytes. */
  lemma {:induction false} SomePrefixFrees(d: Decoder, s: Bytes) returns (k: nat)
    requires Valid(d) && |s| >= ToGo(d)
    ensures k <= ToGo(d) <= |d.storage| + 5 && After(d, s[..k]).state.WaitingForMagic?
    decreases ToGo(d)
  {
    hide ToGo, Push;
    WaitingHasNothingToGo(d);
    if d.state.WaitingForMagic? {
      k := 0;
      return;
    }
    EveryByteIsProgress(d, s[0]);
    var next := Push(d, s[0]).0;
    var j := SomePrefixFrees(next, s[1..]);
    k := j + 1;
    assert s[..k] == [s[0]] + s[1..][..j];
    AfterAppends(d, [s[0]], s[1..][..j]);
    AfterOne(d, s[0]);
  }

  lemma AfterOne(d: Decoder, b: bv8)
    requires Valid(d)
    ensures After(d, [b]) == Push(d, b).0
  {
    hide Push;
    assert [b][..0] == [];
  }

  /**
   After any garbage that left the decoder in any state, capacity + 5 bytes without a magic byte followed by
   any run of frames deliver exactly that run.
   */
  lemma Resynchronizes(d: Decoder, noise: Bytes, ms: seq<Message>)
    requires Valid(d) && MAGIC !in noise && |noise| >= |d.storage| + 5
    requires forall k :: 0 <= k < |ms| ==> |ms[k].payload| <= |d.storage| && |ms[k].payload| <= MAX_LENGTH
    ensures After(d, noise).state.WaitingForMagic?
    ensures Observe(d, noise + EncodeAll(ms)) == Observe(d, noise) + Deliveries(ms)
  {
    hide Observe, After, Push, ToGo, Valid;
    NoiseFrees(d, noise);
    EveryByteIsProgress(d, 0);
    WaitingHasNothingToGo(After(d, noise));
    ObserveAppends(d, noise, EncodeAll(ms));
    RoundTrip(After(d, noise), ms);
  }

  /** The bound is exact: one magic byte can keep the decoder busy for capacity + 4 further bytes. */
  lemma ResyncBoundIsExact(d: Decoder, id: bv8) returns (s: Bytes)
    requires Valid(d) && d.state.WaitingForMagic? && |d.storage| <= MAX_LENGTH
    ensures |s| == |d.storage| + 5 && s[0] == MAGIC && MAGIC !in s[4..] && !After(d, s).state.WaitingForMagic?
  {
    hide Fold, Length, After, High, Low, WordOf, Observe, Valid;
    var n := |d.storage|;
    s := [MAGIC, id, High(WordOf(n)), Low(WordOf(n))] + Zeros(n + 1);
    LengthOfHalves(n);
    PendingIsQuiet(d, s);
    assert s[4..] == Zeros(n + 1);
  }

  function Zeros(n: nat): (r: Bytes)
    ensures |r| == n && forall k :: 0 <= k < n ==> r[k] == 0
  {
    seq(n, _ => 0)
  }

  // ------------------------------------------------------------------ corruption

  /** An error pattern over a whole frame that leaves the magic byte and both length bytes alone. */
  ghost predicate SparesFraming(e: Bytes, payload: Bytes) {
    |e| == |payload| + OVERHEAD && e[0] == 0 && e[2] == 0 && e[3] == 0
  }

  lemma ResidueAfterMagic(e: Bytes)
    requires e != [] && e[0] == 0
    ensures Residue(e) == Fold(0, e[1..])
  {
    hide FoldByte;
    assert e == e[..1] + e[1..] && e[..1] == [0] && [0 as bv8][..0] == [];
    FoldAppends(0, e[..1], e[1..]);
    ZeroKeepsZero();
  }

  lemma ZeroKeepsZero()
    ensures FoldByte(0, 0) == 0
  {
    hide Advance;
    AdvanceKeepsNonzero(0, 8);
  }

  lemma IntactIffZero(s: Bytes)
    requires |s| >= OVERHEAD
    ensures Intact(s) <==> Fold(INITIAL, s[1..]) == 0
  {
    hide Fold, Word;
    var m := s[1..|s| - 2];
    assert s[1..] == m + [s[|s| - 2], s[|s| - 1]];
    ChecksumMatchesIffResidueIsZero(m, s[|s| - 2], s[|s| - 1]);
  }

  /** A corrupted frame still passes its checksum exactly when the error pattern has residue zero. */
  lemma CorruptionPassesIffResidueIsZero(id: bv8, payload: Bytes, e: Bytes)
    requires |payload| <= MAX_LENGTH && SparesFraming(e, payload)
    ensures Intact(Xor(Encode(id, payload), e)) <==> Residue(e) == 0
  {
    hide Fold, Word, High, Low, Length, Encode, Verdict, Intact, Add;
    var s := Encode(id, payload);
    EncodingIsIntact(id, payload);
    IntactIffZero(s);
    IntactIffZero(Xor(s, e));
    ResidueAfterMagic(e);
    assert Xor(s, e)[1..] == Xor(s[1..], e[1..]);
    FoldIsLinear(INITIAL, 0, s[1..], e[1..]);
    AddZero(INITIAL);
    AddCommutes(0, Residue(e));
    AddZero(Residue(e));
  }

  lemma XorKeepsFraming(id: bv8, payload: Bytes, e: Bytes)
    requires |payload| <= MAX_LENGTH && SparesFraming(e, payload)
    ensures var t := Xor(Encode(id, payload), e); t[0] == MAGIC && Length(t[2], t[3]) == |payload|
  {
    hide Fold, Word, High, Low, Length, Encode, Verdict;
    EncodingIsIntact(id, payload);
    var s := Encode(id, payload);
    XorZero(s[0]);
    XorZero(s[2]);
    XorZero(s[3]);
  }

  lemma XorZero(b: bv8)
    ensures b ^ 0 == b
  {
  }

  /**
   What the decoder says about a frame hit by an error that spares the framing: silence until the last byte,
   and there it hands the frame out exactly when the residue of the error is zero.
   */
  lemma CorruptedFrameOutcome(d: Decoder, id: bv8, payload: Bytes, e: Bytes)
    requires Valid(d) && d.state.WaitingForMagic?
    requires |payload| <= |d.storage| && |payload| <= MAX_LENGTH && SparesFraming(e, payload)
    ensures var t := Xor(Encode(id, payload), e);
            Observe(d, t) == Silent(|t| - 1) + [if Residue(e) == 0 then Frame(t[1], t[4..|t| - 2]) else Rejected]
    ensures After(d, Xor(Encode(id, payload), e)).state.WaitingForMagic?
  {
    hide Fold, Word, Length, Encode, Observe, After, Intact;
    var t := Xor(Encode(id, payload), e);
    XorKeepsFraming(id, payload, e);
    CorruptionPassesIffResidueIsZero(id, payload, e);
    PrefixIsPending(t, |payload|, |d.storage|);
    CompleteIsJudged(d, t);
  }

  lemma PrefixIsPending(t: Bytes, n: nat, capacity: nat)
    requires |t| == n + OVERHEAD && Length(t[2], t[3]) == n && n <= capacity
    ensures Pending(t[..|t| - 1], capacity) && !Pending(t, capacity)
  {
    hide Length;
  }

  /** Every burst of up to 16 bits is caught, at any bit position and for every payload length. */
  lemma BurstIsRejected(d: Decoder, id: bv8, payload: Bytes, e: Bytes, first: nat)
    requires Valid(d) && d.state.WaitingForMagic?
    requires |payload| <= |d.storage| && |payload| <= MAX_LENGTH && SparesFraming(e, payload)
    requires IsBurst(BitsOf(e), first)
    ensures var t := Xor(Encode(id, payload), e); Observe(d, t) == Silent(|t| - 1) + [Rejected]
  {
    hide Encode, Observe, BitsOf, IsBurst, SparesFraming, Valid, Residue;
    BurstLeavesResidue(e, first);
    CorruptedFrameOutcome(d, id, payload, e);
  }

  /** Every error that flips an odd number of bits is caught. */
  lemma OddErrorIsRejected(d: Decoder, id: bv8, payload: Bytes, e: Bytes)
    requires Valid(d) && d.state.WaitingForMagic?
    requires |payload| <= |d.storage| && |payload| <= MAX_LENGTH && SparesFraming(e, payload)
    requires OddBits(BitsOf(e))
    ensures var t := Xor(Encode(id, payload), e); Observe(d, t) == Silent(|t| - 1) + [Rejected]
  {
    hide Encode, Observe, BitsOf, OddBits, SparesFraming, Valid, Residue;
    OddErrorLeavesResidue(e);
    CorruptedFrameOutcome(d, id, payload, e);
  }

  /** In particular: any change confined to two neighbouring bytes. */
  lemma TwoByteErrorIsBurst(e: Bytes, i: nat) returns (first: nat)
    requires i + 1 < |e| && (e[i] != 0 || e[i + 1] != 0)
    requires forall k :: 0 <= k < |e| && k != i && k != i + 1 ==> e[k] == 0
    ensures IsBurst(BitsOf(e), first)
  {
    hide Bit;
    var j := if e[i] != 0 then i else i + 1;
    var b := FirstBit(e[j]);
    first := 8 * j + b;
    forall k | 0 <= k < 8 * |e| && BitsOf(e)[k]
      ensures first <= k < first + 16
    {
      NoBitsInZero(k % 8);
      assert k / 8 == j ==> k % 8 >= b;
    }
  }

  lemma {:induction false} NoBitsInZero(i: nat)
    ensures !Bit(0, i)
    decreases i
  {
    if i > 0 { NoBitsInZero(i - 1); }
  }

  lemma SomeBitIsSet(b: bv8)
    requires b != 0
    ensures exists i: nat :: i < 8 && Bit(b, i)
  {
    assert Bit(b, 0) || Bit(b, 1) || Bit(b, 2) || Bit(b, 3) || Bit(b, 4) || Bit(b, 5) || Bit(b, 6) || Bit(b, 7);
  }

  lemma FirstBit(b: bv8) returns (i: nat)
    requires b != 0
    ensures i < 8 && Bit(b, i) && forall k: nat :: k < i ==> !Bit(b, k)
  {
    hide Bit;
    SomeBitIsSet(b);
    i := 0;
    while !Bit(b, i)
      invariant i < 8 && forall k: nat :: k < i ==> !Bit(b, k)
      decreases 8 - i
    {
      i := i + 1;
    }
  }
}
