/** Message frames on a byte stream, however the stream is cut into pieces. */
module Framing {
  import opened Octets
  import opened MsgBuffer

  /** A frame: the payload's length, a second head word that nobody sets, and the payload. */
  predicate IsFrame(frame: bytes, payload: bytes) {
    |frame| == HEAD_LENGTH + |payload| && frame[..4] == BE(4, |payload|) && frame[HEAD_LENGTH..] == payload
  }

  /** Payload lengths the reader accepts; head and payload together must be counted by an int. */
  predicate Admissible(len: int) {
    4 <= len <= INT_MAX - HEAD_LENGTH
  }

  predicate WellFramed(frame: bytes) {
    Admissible(|frame| - HEAD_LENGTH) && FromBE(frame[..4]) == |frame| - HEAD_LENGTH
  }

  lemma {:induction false} FrameIsWellFramed(frame: bytes, payload: bytes)
    requires IsFrame(frame, payload) && Admissible(|payload|)
    ensures WellFramed(frame)
  {
    Pow256Values();
    FromBEofBE(4, |payload|);
  }

  function Concat(frames: seq<bytes>): bytes {
    if frames == [] then [] else frames[0] + Concat(frames[1..])
  }

  /** The size of the whole frame at the front of a stream, if there is one. */
  function FrontSize(b: bytes): (n: Option<nat>)
    ensures n.Some? ==> 4 < n.value <= |b|
  {
    if |b| < 4 || !Admissible(FromBE(b[..4])) || |b| < HEAD_LENGTH + FromBE(b[..4]) then None
    else Some(HEAD_LENGTH + FromBE(b[..4]))
  }

  /** The whole frames at the front of a stream, and the bytes after them. */
  function Deframe(b: bytes): (r: (seq<bytes>, bytes)) {
    match FrontSize(b)
    case None => ([], b)
    case Some(n) => ([b[..n]] + Deframe(b[n..]).0, Deframe(b[n..]).1)
  }

  /** How many frames lie wholly within the first cut bytes. */
  function Whole(frames: seq<bytes>, cut: nat): (k: nat)
    ensures k <= |frames|
  {
    if frames == [] || cut < |frames[0]| then 0 else 1 + Whole(frames[1..], cut - |frames[0]|)
  }

  lemma {:induction false} ConcatConcat(a: seq<bytes>, b: seq<bytes>)
    ensures Concat(a + b) == Concat(a) + Concat(b)
  {
    if a == [] {
      assert a + b == b;
    } else {
      assert (a + b)[1..] == a[1..] + b;
      ConcatConcat(a[1..], b);
    }
  }

  lemma {:induction false} FrontSizeStable(b: bytes, more: bytes)
    requires FrontSize(b).Some?
    ensures FrontSize(b + more) == FrontSize(b)
    ensures var n := FrontSize(b).value; (b + more)[..n] == b[..n] && (b + more)[n..] == b[n..] + more
  {
    assert (b + more)[..4] == b[..4];
  }

  lemma {:induction false} FrontSizeOfFrame(frame: bytes, more: bytes)
    requires WellFramed(frame)
    ensures FrontSize(frame + more) == Some(|frame|)
  {
    assert (frame + more)[..4] == frame[..4];
  }

  lemma {:induction false} FrontSizeOfPart(frame: bytes, cut: nat)
    requires WellFramed(frame) && cut < |frame|
    ensures FrontSize(frame[..cut]) == None
  {
    if cut >= 4 {
      assert frame[..cut][..4] == frame[..4];
    }
  }

  lemma {:induction false} FrontIsFrame(b: bytes)
    requires FrontSize(b).Some?
    ensures WellFramed(b[..FrontSize(b).value])
  {
    assert b[..FrontSize(b).value][..4] == b[..4];
  }

  /** Splitting a stream loses nothing and invents nothing. */
  lemma {:induction false} DeframeKeepsBytes(b: bytes)
    ensures Concat(Deframe(b).0) + Deframe(b).1 == b
    ensures forall f | f in Deframe(b).0 :: WellFramed(f)
  {
    if FrontSize(b).Some? {
      var n := FrontSize(b).value;
      FrontIsFrame(b);
      DeframeKeepsBytes(b[n..]);
      KeptWithFront(b[..n], b[n..]);
      assert b == b[..n] + b[n..];
      assert Deframe(b) == ([b[..n]] + Deframe(b[n..]).0, Deframe(b[n..]).1);
    } else {
      assert Deframe(b) == ([], b) && Concat([]) + b == b;
    }
  }

  lemma {:induction false} KeptWithFront(f: bytes, rest: bytes)
    requires WellFramed(f) && Concat(Deframe(rest).0) + Deframe(rest).1 == rest
    requires forall g | g in Deframe(rest).0 :: WellFramed(g)
    ensures Concat([f] + Deframe(rest).0) + Deframe(rest).1 == f + rest
    ensures forall g | g in [f] + Deframe(rest).0 :: WellFramed(g)
  {
    hide WellFramed, Deframe;
    ConsConcat(f, Deframe(rest).0, Deframe(rest).1);
  }

  lemma {:induction false} ConsConcat(f: bytes, frames: seq<bytes>, rest: bytes)
    ensures Concat([f] + frames) + rest == f + (Concat(frames) + rest)
  {
    assert ([f] + frames)[1..] == frames;
  }

  /** For every sequence of frames and every cut, exactly the frames wholly before the cut come out,
      identical and in order, and the bytes of the next frame so far are kept. */
  lemma {:induction false} DeframeExactly(frames: seq<bytes>, cut: nat)
    requires forall f | f in frames :: WellFramed(f)
    requires cut <= |Concat(frames)|
    ensures |Concat(frames[..Whole(frames, cut)])| <= cut
    ensures Deframe(Concat(frames)[..cut]) ==
            (frames[..Whole(frames, cut)], Concat(frames)[|Concat(frames[..Whole(frames, cut)])|..cut])
  {
    if frames != [] {
      var f, tail := frames[0], frames[1..];
      assert f in frames && forall g | g in tail :: g in frames;
      if cut < |f| {
        assert Concat(frames)[..cut] == f[..cut];
        FrontSizeOfPart(f, cut);
      } else {
        DeframeExactly(tail, cut - |f|);
        FrameAndMore(f, tail, cut);
        assert frames[..Whole(frames, cut)] == [f] + tail[..Whole(tail, cut - |f|)];
      }
    }
  }

  lemma {:induction false} DeframeCons(f: bytes, rest: bytes)
    requires WellFramed(f)
    ensures Deframe(f + rest) == ([f] + Deframe(rest).0, Deframe(rest).1)
  {
    FrontSizeOfFrame(f, rest);
    assert (f + rest)[..|f|] == f && (f + rest)[|f|..] == rest;
  }

  lemma {:induction false} FrameAndMore(f: bytes, tail: seq<bytes>, cut: nat)
    requires WellFramed(f) && |f| <= cut <= |f| + |Concat(tail)|
    requires var k := Whole(tail, cut - |f|);
             && |Concat(tail[..k])| <= cut - |f|
             && Deframe(Concat(tail)[..cut - |f|]) == (tail[..k], Concat(tail)[|Concat(tail[..k])|..cut - |f|])
    ensures var k := Whole(tail, cut - |f|);
            && |f| + |Concat(tail[..k])| == |Concat([f] + tail[..k])| <= cut
            && Deframe((f + Concat(tail))[..cut]) ==
               ([f] + tail[..k], (f + Concat(tail))[|Concat([f] + tail[..k])|..cut])
  {
    var k := Whole(tail, cut - |f|);
    hide FrontSize, WellFramed, Deframe, Whole;
    CutAfterFrame(f, Concat(tail), cut);
    DeframeCons(f, Concat(tail)[..cut - |f|]);
    assert ([f] + tail[..k])[1..] == tail[..k];
    SliceAfter(f, Concat(tail), |Concat(tail[..k])|, cut - |f|);
  }

  lemma {:induction false} CutAfterFrame(f: bytes, tail: bytes, cut: nat)
    requires |f| <= cut <= |f| + |tail|
    ensures (f + tail)[..cut] == f + tail[..cut - |f|]
    ensures (f + tail)[..cut][..|f|] == f && (f + tail)[..cut][|f|..] == tail[..cut - |f|]
  {
  }

  lemma {:induction false} SliceAfter(f: bytes, tail: bytes, i: nat, j: nat)
    requires i <= j <= |tail|
    ensures (f + tail)[|f| + i..|f| + j] == tail[i..j]
  {
  }

  /** Reading on from a cut: only the bytes left over matter. */
  lemma {:induction false} DeframeAppend(b: bytes, more: bytes)
    ensures Deframe(b + more).0 == Deframe(b).0 + Deframe(Deframe(b).1 + more).0
    ensures Deframe(b + more).1 == Deframe(Deframe(b).1 + more).1
  {
    if FrontSize(b).Some? {
      FrontSizeStable(b, more);
      DeframeAppend(b[FrontSize(b).value..], more);
    }
  }

  /** Nothing more can be split off what was left over. */
  lemma {:induction false} RestIsPartial(b: bytes)
    ensures FrontSize(Deframe(b).1) == None
  {
    if FrontSize(b).Some? {
      RestIsPartial(b[FrontSize(b).value..]);
    }
  }

  // ---------------------------------------------------------------- the reader's steps

  /** No length word makes head and payload together exceed int. (Words that are negative as an int
      are short, not large.) */
  predicate Tame(stream: bytes) {
    var rest := Deframe(stream).1;
    |rest| >= 4 ==> !(INT_MAX - HEAD_LENGTH < FromBE(rest[..4]) <= INT_MAX)
  }

  /** The left-over bytes start with a length word that announces no acceptable frame. */
  predicate Short(rest: bytes) {
    |rest| >= 4 && !Admissible(FromBE(rest[..4]))
  }

  lemma {:induction false} WordStep(consumed: bytes, word: bytes)
    requires Deframe(consumed).1 == [] && |word| <= 4
    ensures Deframe(consumed + word) == (Deframe(consumed).0, word)
  {
    DeframeAppend(consumed, word);
    assert [] + word == word && FrontSize(word) == None;
    assert Deframe(consumed).0 + [] == Deframe(consumed).0;
  }

  lemma {:induction false} PartStep(consumed: bytes, more: bytes, size: nat)
    requires var part := Deframe(consumed).1;
             |part| >= 4 && size == HEAD_LENGTH + FromBE(part[..4]) && Admissible(size - HEAD_LENGTH)
                 && |part + more| <= size
    ensures var part := Deframe(consumed).1;
            Deframe(consumed + more) ==
            if |part + more| == size then (Deframe(consumed).0 + [part + more], [])
                else (Deframe(consumed).0, part + more)
  {
    var whole := Deframe(consumed).1 + more;
    DeframeAppend(consumed, more);
    assert whole[..4] == Deframe(consumed).1[..4];
    if |whole| == size {
      assert FrontSize(whole) == Some(size) && whole[..size] == whole && whole[size..] == [];
      assert Deframe(whole) == ([whole] + Deframe([]).0, Deframe([]).1);
      assert [whole] + [] == [whole];
    } else {
      assert FrontSize(whole) == None;
      assert Deframe(consumed).0 + [] == Deframe(consumed).0;
    }
  }

  lemma {:induction false} TameWord(consumed: bytes, word: bytes, later: bytes)
    requires Deframe(consumed).1 == [] && |word| == 4 && Tame(consumed + word + later)
    ensures !(INT_MAX - HEAD_LENGTH < FromBE(word) <= INT_MAX)
  {
    assert consumed + word + later == consumed + (word + later);
    DeframeAppend(consumed, word + later);
    assert [] + (word + later) == word + later && (word + later)[..4] == word;
  }

  /** After a word that announces too little, nothing later in the stream is a frame. */
  lemma {:induction false} StuckAtWord(consumed: bytes, later: bytes)
    requires Short(Deframe(consumed).1)
    ensures Deframe(consumed + later).0 == Deframe(consumed).0 && Short(Deframe(consumed + later).1)
  {
    var rest := Deframe(consumed).1;
    DeframeAppend(consumed, later);
    assert (rest + later)[..4] == rest[..4];
    assert FrontSize(rest + later) == None;
    assert Deframe(consumed).0 + [] == Deframe(consumed).0;
  }

  /** Streams that start with such a word: nothing in them is ever a frame. */
  lemma {:induction false} ShortWordFirst(len: u32, later: bytes)
    requires len < 4 || len > INT_MAX
    ensures var stream := BE(4, len) + later;
            Deframe(stream) == ([], stream) && Short(stream) && Tame(stream)
  {
    Pow256Values();
    FromBEofBE(4, len);
    assert (BE(4, len) + later)[..4] == BE(4, len);
  }
}
