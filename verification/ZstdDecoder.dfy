/** Decoding within limits: the size bound, the checks before decoding, and the protocol
    of slots and locks between Decode and Close. The library decoder itself is given: it
    never writes past the capacity of the buffer it gets. */
module ZstdDecoder {
  import opened Basics
  import opened ZstdFrame

  const WORD := 0x1_0000_0000_0000_0000

  datatype Limits = Limits(maxSize: nat, maxRatio: nat, requireSize: bool, multiFrame: bool, concurrency: nat)
  {
    /** What NewDecoder accepts and Go's int can hold. */
    predicate Valid() {
      0 < maxSize < WORD / 2 && 0 < maxRatio < WORD / 2 && 0 < concurrency
    }
  }

  /** What the library reads from the first frame header, if it can. */
  datatype Info = Info(readable: bool, contentSize: Option<nat>, skippable: bool)

  datatype Verdict = Allowed | BadHeader | TooLarge | Frames | Truncated

  /** The bound, computed in 64 bits. */
  function Bound(l: Limits, length: nat): nat {
    Min(l.maxSize, (length * l.maxRatio) % WORD)
  }

  function Check(l: Limits, h: Info, decode: HeaderDecoder, src: seq<Byte>): Verdict {
    if !h.readable then BadHeader
    else if h.contentSize.Some? && h.contentSize.value > Bound(l, |src|) then TooLarge
    else if h.contentSize.None? && l.requireSize then TooLarge
    else if l.multiFrame then Allowed
    else if h.skippable then Frames
    else
      var n := FrameLengthOf(decode, src);
      if n.None? then Truncated else if n.value != |src| then Frames else Allowed
  }

  /** The bytes a decode reserves. */
  function Capacity(l: Limits, h: Info, length: nat): nat {
    if h.contentSize.Some? && !l.multiFrame then h.contentSize.value else Bound(l, length)
  }

  datatype Result = Ok(out: seq<Byte>) | Error

  /** Decode, given what the library makes of the input: a result no longer than the
      capacity it was handed, or an error. */
  function Decode(l: Limits, h: Info, decode: HeaderDecoder, src: seq<Byte>, library: Result): Result {
    if !Check(l, h, decode, src).Allowed? then Error
    else if library.Error? then Error
    else if h.contentSize.Some? && !l.multiFrame && |library.out| != h.contentSize.value then Error
    else library
  }

  predicate RespectsCapacity(l: Limits, h: Info, src: seq<Byte>, library: Result) {
    library.Ok? ==> |library.out| <= Capacity(l, h, |src|)
  }

  lemma WrappingOnlyLowers(product: nat)
    ensures product % WORD <= product
    ensures product % WORD == product <==> product < WORD
  {
  }

  lemma BoundWithin(l: Limits, length: nat)
    ensures Bound(l, length) <= l.maxSize && Bound(l, length) <= length * l.maxRatio
  {
    WrappingOnlyLowers(length * l.maxRatio);
  }

  lemma CapacityWithin(l: Limits, h: Info, decode: HeaderDecoder, src: seq<Byte>)
    ensures Check(l, h, decode, src).Allowed? ==> Capacity(l, h, |src|) <= Bound(l, |src|) <= l.maxSize
  {
    BoundWithin(l, |src|);
    hide Bound, FrameLengthOf;
  }

  /** The input is one frame and nothing else. */
  ghost predicate IsOneFrame(decode: HeaderDecoder, src: seq<Byte>) {
    exists f :: IsFrame(decode, f) && EncodeFrame(f) == src
  }

  lemma OneFrameIff(decode: HeaderDecoder, src: seq<Byte>)
    requires SelfDelimiting(decode)
    ensures FrameLengthOf(decode, src) == Some(|src|) <==> IsOneFrame(decode, src)
  {
    hide SelfDelimiting, FrameLengthOf, EncodeFrame;
    if FrameLengthOf(decode, src) == Some(|src|) {
      var f := FrameAtStart(decode, src);
      assert src[..|src|] == src;
    }
    if f :| IsFrame(decode, f) && EncodeFrame(f) == src {
      FrameThenAnything(decode, f, []);
      assert src + [] == src;
    }
  }

  /** The checks allow exactly: a readable header whose declared size is within the bound, an
      undeclared size only where it may be, and without MultiFrame exactly one frame. */
  lemma AllowedIff(l: Limits, h: Info, decode: HeaderDecoder, src: seq<Byte>)
    requires SelfDelimiting(decode)
    ensures Check(l, h, decode, src).Allowed? <==>
            && h.readable
            && (h.contentSize.Some? ==> h.contentSize.value <= Bound(l, |src|))
            && (h.contentSize.None? ==> !l.requireSize)
            && (l.multiFrame || (!h.skippable && IsOneFrame(decode, src)))
  {
    OneFrameIff(decode, src);
    hide Bound, FrameLengthOf, SelfDelimiting, IsOneFrame;
  }

  /** A frame is at the start of the input, with something behind it. */
  ghost predicate MoreThanOneFrame(decode: HeaderDecoder, src: seq<Byte>) {
    exists f :: IsFrame(decode, f) && EncodeFrame(f) < src
  }

  lemma MoreIff(decode: HeaderDecoder, src: seq<Byte>)
    requires SelfDelimiting(decode)
    ensures FrameLengthOf(decode, src).Some? && FrameLengthOf(decode, src).value != |src| <==> MoreThanOneFrame(decode, src)
  {
    hide SelfDelimiting, FrameLengthOf, EncodeFrame;
    if FrameLengthOf(decode, src).Some? && FrameLengthOf(decode, src).value != |src| {
      var f := FrameAtStart(decode, src);
      assert EncodeFrame(f) < src;
    }
    if f :| IsFrame(decode, f) && EncodeFrame(f) < src {
      assert src == EncodeFrame(f) + src[|EncodeFrame(f)|..];
      FrameThenAnything(decode, f, src[|EncodeFrame(f)|..]);
    }
  }

  /** What input is refused for, in this order: an unreadable header; a declared size over the bound,
      or none where one is required; and without MultiFrame a skippable frame or something
      behind the first one, or else no whole frame at all. */
  lemma RefusedFor(l: Limits, h: Info, decode: HeaderDecoder, src: seq<Byte>)
    requires SelfDelimiting(decode)
    ensures var v := Check(l, h, decode, src);
            var large := if h.contentSize.Some? then h.contentSize.value > Bound(l, |src|) else l.requireSize;
            var several := h.skippable || MoreThanOneFrame(decode, src);
            && (v.BadHeader? <==> !h.readable)
            && (v.TooLarge? <==> h.readable && large)
            && (v.Frames? <==> h.readable && !large && !l.multiFrame && several)
            && (v.Truncated? <==> h.readable && !large && !l.multiFrame && !several && !IsOneFrame(decode, src))
  {
    OneFrameIff(decode, src);
    MoreIff(decode, src);
    hide Bound, FrameLengthOf, SelfDelimiting, IsOneFrame, MoreThanOneFrame;
  }

  /** Output is what the library made of allowed input, never more than either limit even when
      the product overflows, and of exactly the size a single frame declares; and whatever the
      library made of allowed input and of the declared size is output. */
  lemma DecodeWithinLimits(l: Limits, h: Info, decode: HeaderDecoder, src: seq<Byte>, library: Result)
    requires l.Valid() && SelfDelimiting(decode) && RespectsCapacity(l, h, src, library)
    ensures var r := Decode(l, h, decode, src, library);
            && (r.Ok? ==> r == library && |r.out| <= l.maxSize && |r.out| <= |src| * l.maxRatio)
            && (r.Ok? <==> && Check(l, h, decode, src).Allowed? && library.Ok?
                           && (h.contentSize.Some? && !l.multiFrame ==> |library.out| == h.contentSize.value))
  {
    hide Bound, Check, SelfDelimiting, Limits.Valid;
    CapacityWithin(l, h, decode, src);
    BoundWithin(l, |src|);
  }

  /** The bound is the documented one exactly when the product does not overflow, or
      overflows to something that is no limit. */
  lemma BoundIsExactIff(l: Limits, length: nat)
    requires l.Valid()
    ensures Bound(l, length) == Min(l.maxSize, length * l.maxRatio)
            <==> length * l.maxRatio < WORD || (length * l.maxRatio) % WORD >= l.maxSize
  {
    WrappingOnlyLowers(length * l.maxRatio);
  }

  /** A library that decodes src to content, unless that exceeds the capacity it is handed. */
  function LibraryOn(content: seq<Byte>, capacity: nat): Result {
    if |content| <= capacity then Ok(content) else Error
  }

  /** Input that the documented limits allow: neither what is declared nor what there is exceeds
      MaxSize or the input length times MaxRatio. */
  ghost predicate AllowedByLimits(l: Limits, h: Info, decode: HeaderDecoder, src: seq<Byte>, content: seq<Byte>) {
    var bound := Min(l.maxSize, |src| * l.maxRatio);
    && h.readable && |content| <= bound
    && (h.contentSize.Some? ==> h.contentSize.value <= bound && (!l.multiFrame ==> |content| == h.contentSize.value))
    && (h.contentSize.None? ==> !l.requireSize)
    && (l.multiFrame || (!h.skippable && IsOneFrame(decode, src)))
  }

  /** Such input is decoded to its content, unless the product overflows to less than that, or to
      less than the declared size; then it is refused. */
  lemma RefusedByOverflowIff(l: Limits, h: Info, decode: HeaderDecoder, src: seq<Byte>, content: seq<Byte>)
    requires l.Valid() && SelfDelimiting(decode) && AllowedByLimits(l, h, decode, src, content)
    ensures var product := (|src| * l.maxRatio) % WORD;
            Decode(l, h, decode, src, LibraryOn(content, Capacity(l, h, |src|))) ==
            if |content| <= product && (h.contentSize.Some? ==> h.contentSize.value <= product) then Ok(content) else Error
  {
    AllowedIff(l, h, decode, src);
    hide Check, SelfDelimiting, IsOneFrame, Limits.Valid;
  }

  /** A frame of three literal bytes, with its size declared. */
  function ThreeLiterals(): Frame {
    Frame([0x28, 0xB5, 0x2F, 0xFD, 0x20, 3], [Block(0, 3, [1, 2, 3])], [])
  }

  lemma ThreeLiteralsIsFrame()
    ensures IsFrame(StandardHeader, ThreeLiterals()) && |EncodeFrame(ThreeLiterals())| == 12
  {
    var f := ThreeLiterals();
    assert f.header[..4] == [0x28, 0xB5, 0x2F, 0xFD];
    assert StandardHeader(f.header) == Some(Header(6, false));
    assert f.blocks == [Block(0, 3, [1, 2, 3])] && f.blocks[0].WellFormed();
  }

  /** Both limits allow the frame, the library decodes it, and Decode refuses it: the product of
      twelve bytes and a ratio of two to the power of 62 overflows to nothing. */
  lemma OverflowRefuses(l: Limits)
    requires l == Limits(1024, 0x4000_0000_0000_0000, false, false, 1)
    ensures var src, out: seq<Byte> := EncodeFrame(ThreeLiterals()), [1, 2, 3];
            && l.Valid() && SelfDelimiting(StandardHeader) && IsOneFrame(StandardHeader, src)
            && |out| <= l.maxSize && |out| <= |src| * l.maxRatio
            && RespectsCapacity(l, Info(true, Some(3), false), src, Ok(out))
            && Decode(l, Info(true, Some(3), false), StandardHeader, src, Ok(out)) == Error
  {
    ThreeLiteralsIsFrame();
    StandardHeaderIsSelfDelimiting();
    var src := EncodeFrame(ThreeLiterals());
    hide EncodeFrame, ThreeLiterals, IsFrame, StandardHeader, SelfDelimiting;
    assert IsOneFrame(StandardHeader, src);
    assert (12 * 0x4000_0000_0000_0000) % WORD == 0;
    assert Bound(l, |src|) == 0;
  }

  // ---- slots and locks ----

  type Pid = nat

  datatype Pc =
    | Locking            // Decode, before RLock
    | Checking           // holds the lock shared
    | Slotless(capacity: nat)
    | Decoding(capacity: nat)  // holds a slot; the library is in use
    | Leaving            // holds the lock shared, slot returned
    | Returned
    | Closing            // Close, before Lock
    | Exclusive          // holds the lock
    | Releasing          // the library decoder is being closed
    | Closed

  datatype State = State(closed: bool, released: bool, pcs: map<Pid, Pc>)

  datatype Event = StartDecode(pid: Pid) | StartClose(pid: Pid) | Run(pid: Pid, h: Info, src: seq<Byte>)

  predicate Shared(pc: Pc) { pc.Checking? || pc.Slotless? || pc.Decoding? || pc.Leaving? }

  predicate Exclusively(pc: Pc) { pc.Exclusive? || pc.Releasing? }

  predicate Reader(s: State, p: Pid) { p in s.pcs && Shared(s.pcs[p]) }

  predicate Writer(s: State, p: Pid) { p in s.pcs && Exclusively(s.pcs[p]) }

  function Slots(s: State): set<Pid> {
    set p | p in s.pcs && s.pcs[p].Decoding?
  }

  function Goto(s: State, p: Pid, pc: Pc): State { s.(pcs := s.pcs[p := pc]) }

  /** One step; a step that has to wait changes nothing. A decode that starts its checks
      has src to decode, of which h is the first header. */
  function Step(l: Limits, decode: HeaderDecoder, s: State, p: Pid, h: Info, src: seq<Byte>): State
    requires p in s.pcs
  {
    match s.pcs[p]
    case Locking => if exists q <- s.pcs :: Writer(s, q) then s else Goto(s, p, Checking)
    case Checking =>
      Goto(s, p, if s.closed || !Check(l, h, decode, src).Allowed? then Leaving else Slotless(Capacity(l, h, |src|)))
    case Slotless(c) => if |Slots(s)| < l.concurrency then Goto(s, p, Decoding(c)) else s
    case Decoding(_) => Goto(s, p, Leaving)
    case Leaving => Goto(s, p, Returned)
    case Closing =>
      if exists q <- s.pcs :: Writer(s, q) || Reader(s, q) then s else Goto(s, p, Exclusive)
    case Exclusive => if s.closed then Goto(s, p, Closed) else Goto(s.(closed := true), p, Releasing)
    case Releasing => Goto(s.(released := true), p, Closed)
    case Returned | Closed => s
  }

  function Next(l: Limits, decode: HeaderDecoder, s: State, e: Event): State {
    match e
    case StartDecode(pid) => if pid in s.pcs then s else Goto(s, pid, Locking)
    case StartClose(pid) => if pid in s.pcs then s else Goto(s, pid, Closing)
    case Run(pid, h, src) => if pid in s.pcs then Step(l, decode, s, pid, h, src) else s
  }

  function Exec(l: Limits, decode: HeaderDecoder, s: State, events: seq<Event>): State
    decreases |events|
  {
    if events == [] then s else Exec(l, decode, Next(l, decode, s, events[0]), events[1..])
  }

  predicate PcInv(l: Limits, s: State, pc: Pc) {
    && (pc.Slotless? || pc.Decoding? ==> !s.closed && pc.capacity <= l.maxSize)
    && (pc.Releasing? ==> s.closed && !s.released)
  }

  ghost predicate Inv(l: Limits, s: State) {
    && (s.released ==> s.closed)
    && (forall p <- s.pcs :: PcInv(l, s, s.pcs[p]))
    && (forall p, q | Writer(s, p) && Writer(s, q) :: p == q)
    && (forall p, q :: !(Writer(s, p) && Reader(s, q)))
    && |Slots(s)| <= l.concurrency
  }

  lemma StepKeepsLocks(l: Limits, decode: HeaderDecoder, s: State, p: Pid, h: Info, src: seq<Byte>)
    requires Inv(l, s) && p in s.pcs
    ensures var t := Step(l, decode, s, p, h, src);
            && (forall q, r | Writer(t, q) && Writer(t, r) :: q == r)
            && (forall q, r :: !(Writer(t, q) && Reader(t, r)))
  {
    hide Check, Capacity;
    var t := Step(l, decode, s, p, h, src);
    assert forall q | q != p :: (Writer(t, q) <==> Writer(s, q)) && (Reader(t, q) <==> Reader(s, q));
    assert Writer(t, p) ==> Writer(s, p) || forall q <- s.pcs :: !Writer(s, q) && !Reader(s, q);
    assert Reader(t, p) ==> Reader(s, p) || forall q <- s.pcs :: !Writer(s, q);
  }

  lemma StepKeepsPcs(l: Limits, decode: HeaderDecoder, s: State, p: Pid, h: Info, src: seq<Byte>)
    requires Inv(l, s) && p in s.pcs
    ensures var t := Step(l, decode, s, p, h, src);
            (t.released ==> t.closed) && forall q <- t.pcs :: PcInv(l, t, t.pcs[q])
  {
    CapacityWithin(l, h, decode, src);
    hide Check, Capacity;
    var t := Step(l, decode, s, p, h, src);
    assert PcInv(l, s, s.pcs[p]);
    forall q <- t.pcs ensures PcInv(l, t, t.pcs[q]) {
      assert PcInv(l, s, s.pcs[q]);
      assert !(Writer(s, p) && Reader(s, q)) && (Writer(s, p) && Writer(s, q) ==> p == q);
    }
  }

  lemma SlotsMove(l: Limits, s: State, t: State, p: Pid)
    requires p in t.pcs && t.pcs == s.pcs[p := t.pcs[p]]
    requires |Slots(s)| <= l.concurrency && (t.pcs[p].Decoding? ==> |Slots(s)| < l.concurrency)
    ensures |Slots(t)| <= l.concurrency
  {
    if t.pcs[p].Decoding? {
      assert Slots(t) == Slots(s) + {p};
    } else {
      assert Slots(t) == Slots(s) - {p};
    }
  }

  lemma StepKeepsSlots(l: Limits, decode: HeaderDecoder, s: State, p: Pid, h: Info, src: seq<Byte>)
    requires |Slots(s)| <= l.concurrency && p in s.pcs
    ensures |Slots(Step(l, decode, s, p, h, src))| <= l.concurrency
  {
    hide Writer, Reader, Slots, Check, Capacity;
    var t := Step(l, decode, s, p, h, src);
    if t != s { SlotsMove(l, s, t, p); }
  }

  lemma NextKeepsInv(l: Limits, decode: HeaderDecoder, s: State, e: Event)
    requires Inv(l, s)
    ensures Inv(l, Next(l, decode, s, e))
  {
    if e.Run? && e.pid in s.pcs {
      StepKeepsLocks(l, decode, s, e.pid, e.h, e.src);
      StepKeepsPcs(l, decode, s, e.pid, e.h, e.src);
      StepKeepsSlots(l, decode, s, e.pid, e.h, e.src);
      hide Step, PcInv, Writer, Reader, Slots;
    } else {
      var t := Next(l, decode, s, e);
      assert Slots(t) == Slots(s);
      assert forall q :: (Writer(t, q) <==> Writer(s, q)) && (Reader(t, q) <==> Reader(s, q));
    }
  }

  lemma {:induction false} ExecKeepsInv(l: Limits, decode: HeaderDecoder, s: State, events: seq<Event>)
    requires Inv(l, s)
    ensures Inv(l, Exec(l, decode, s, events))
    decreases |events|
  {
    hide Inv, Next;
    if events != [] {
      NextKeepsInv(l, decode, s, events[0]);
      ExecKeepsInv(l, decode, Next(l, decode, s, events[0]), events[1..]);
    }
  }

  /** The bytes reserved by the decodes of a set. */
  ghost function Reserved(s: State, ps: set<Pid>): nat
    requires forall p <- ps :: p in s.pcs && s.pcs[p].Decoding?
  {
    if ps == {} then 0 else
      var p :| p in ps;
      s.pcs[p].capacity + Reserved(s, ps - {p})
  }

  lemma {:induction false} ReservedAtMost(l: Limits, s: State, ps: set<Pid>)
    requires forall p <- ps :: p in s.pcs && s.pcs[p].Decoding? && s.pcs[p].capacity <= l.maxSize
    ensures Reserved(s, ps) <= |ps| * l.maxSize
  {
    if ps != {} {
      var p :| p in ps && Reserved(s, ps) == s.pcs[p].capacity + Reserved(s, ps - {p});
      ReservedAtMost(l, s, ps - {p});
      Times(|ps - {p}|, |ps|, l.maxSize);
    }
  }

  lemma Times(few: nat, many: nat, size: nat)
    requires few <= many
    ensures few * size <= many * size
    ensures few + 1 == many ==> many * size == few * size + size
  {
  }

  /** In every run: the running decodes together reserve no more than Concurrency times
      MaxSize, and the library decoder is in use neither after it was closed nor while it
      is being closed. */
  lemma RunsWithinLimits(l: Limits, decode: HeaderDecoder, events: seq<Event>, p: Pid, q: Pid)
    ensures var s := Exec(l, decode, State(false, false, map[]), events);
            && |Slots(s)| <= l.concurrency
            && Reserved(s, Slots(s)) <= l.concurrency * l.maxSize
            && (p in Slots(s) ==> !s.released && !(q in s.pcs && s.pcs[q].Releasing?))
  {
    hide Next;
    var s0 := State(false, false, map[]);
    assert Slots(s0) == {};
    ExecKeepsInv(l, decode, s0, events);
    var s := Exec(l, decode, s0, events);
    forall r <- Slots(s) ensures s.pcs[r].capacity <= l.maxSize { assert PcInv(l, s, s.pcs[r]); }
    ReservedAtMost(l, s, Slots(s));
    Times(|Slots(s)|, l.concurrency, l.maxSize);
    if p in Slots(s) {
      assert PcInv(l, s, s.pcs[p]) && Reader(s, p);
      assert !(Writer(s, q) && Reader(s, p));
    }
  }

  // ---- progress ----

  function RunBy(l: Limits, decode: HeaderDecoder, s: State, p: Pid, h: Info, src: seq<Byte>, n: nat): State
    decreases n
  {
    if n == 0 then s else RunBy(l, decode, Next(l, decode, s, Run(p, h, src)), p, h, src, n - 1)
  }

  /** A decode that is left alone, of allowed input, with a slot free and nobody closing, gets to the
      library with exactly the capacity for it, gives the slot back and returns. After a Close,
      or of input that is not allowed, it returns without touching the library. */
  lemma DecodeReturns(l: Limits, decode: HeaderDecoder, s: State, p: Pid, h: Info, src: seq<Byte>)
    requires p in s.pcs && s.pcs[p].Locking? && (forall q <- s.pcs :: !Writer(s, q)) && |Slots(s)| < l.concurrency
    ensures if !s.closed && Check(l, h, decode, src).Allowed?
            then && RunBy(l, decode, s, p, h, src, 3) == Goto(s, p, Decoding(Capacity(l, h, |src|)))
                 && RunBy(l, decode, s, p, h, src, 5) == Goto(s, p, Returned)
            else && RunBy(l, decode, s, p, h, src, 2) == Goto(s, p, Leaving)
                 && RunBy(l, decode, s, p, h, src, 3) == Goto(s, p, Returned)
  {
    hide *;
    if !s.closed && Check(l, h, decode, src).Allowed? {
      DecodeAllowed(l, decode, s, p, h, src);
    } else {
      DecodeRefused(l, decode, s, p, h, src);
    }
  }

  lemma DecodeAllowed(l: Limits, decode: HeaderDecoder, s: State, p: Pid, h: Info, src: seq<Byte>)
    requires p in s.pcs && s.pcs[p].Locking? && (forall q <- s.pcs :: !Writer(s, q)) && |Slots(s)| < l.concurrency
    requires !s.closed && Check(l, h, decode, src).Allowed?
    ensures RunBy(l, decode, s, p, h, src, 3) == Goto(s, p, Decoding(Capacity(l, h, |src|)))
    ensures RunBy(l, decode, s, p, h, src, 5) == Goto(s, p, Returned)
  {
    hide Check, Capacity, Writer, Slots;
    var e, c := Run(p, h, src), Capacity(l, h, |src|);
    var s1, s2, s3 := Goto(s, p, Checking), Goto(s, p, Slotless(c)), Goto(s, p, Decoding(c));
    var s4, s5 := Goto(s, p, Leaving), Goto(s, p, Returned);
    assert Slots(s2) == Slots(s) by { SlotsSame(s, p, s2.pcs[p]); }
    assert Next(l, decode, s, e) == s1 && Next(l, decode, s1, e) == s2 && Next(l, decode, s2, e) == s3;
    assert Next(l, decode, s3, e) == s4 && Next(l, decode, s4, e) == s5;
    hide Next, Goto;
    assert RunBy(l, decode, s3, p, h, src, 0) == s3 && RunBy(l, decode, s2, p, h, src, 1) == s3;
    assert RunBy(l, decode, s1, p, h, src, 2) == s3;
    assert RunBy(l, decode, s5, p, h, src, 0) == s5 && RunBy(l, decode, s4, p, h, src, 1) == s5;
    assert RunBy(l, decode, s3, p, h, src, 2) == s5 && RunBy(l, decode, s2, p, h, src, 3) == s5;
    assert RunBy(l, decode, s1, p, h, src, 4) == s5;
  }

  lemma DecodeRefused(l: Limits, decode: HeaderDecoder, s: State, p: Pid, h: Info, src: seq<Byte>)
    requires p in s.pcs && s.pcs[p].Locking? && (forall q <- s.pcs :: !Writer(s, q))
    requires s.closed || !Check(l, h, decode, src).Allowed?
    ensures RunBy(l, decode, s, p, h, src, 2) == Goto(s, p, Leaving)
    ensures RunBy(l, decode, s, p, h, src, 3) == Goto(s, p, Returned)
  {
    hide Check, Capacity, Writer, Slots;
    var e := Run(p, h, src);
    var s1, s2, s3 := Goto(s, p, Checking), Goto(s, p, Leaving), Goto(s, p, Returned);
    assert Next(l, decode, s, e) == s1 && Next(l, decode, s1, e) == s2 && Next(l, decode, s2, e) == s3;
    hide Next, Goto;
    assert RunBy(l, decode, s2, p, h, src, 0) == s2 && RunBy(l, decode, s1, p, h, src, 1) == s2;
    assert RunBy(l, decode, s3, p, h, src, 0) == s3 && RunBy(l, decode, s2, p, h, src, 1) == s3;
    assert RunBy(l, decode, s1, p, h, src, 2) == s3;
  }

  lemma SlotsSame(s: State, p: Pid, pc: Pc)
    requires p in s.pcs && !s.pcs[p].Decoding? && !pc.Decoding?
    ensures Slots(Goto(s, p, pc)) == Slots(s)
  {
  }

  /** A Close that nobody is in the way of closes: the library decoder is released by the first one,
      and only by that. */
  lemma CloseCloses(l: Limits, decode: HeaderDecoder, s: State, p: Pid, h: Info, src: seq<Byte>)
    requires p in s.pcs && s.pcs[p].Closing? && forall q <- s.pcs :: !Writer(s, q) && !Reader(s, q)
    ensures if s.closed then RunBy(l, decode, s, p, h, src, 2) == Goto(s, p, Closed)
            else RunBy(l, decode, s, p, h, src, 3) == Goto(s.(closed := true, released := true), p, Closed)
  {
    hide Check, Capacity, Writer, Reader, Slots;
    var e := Run(p, h, src);
    var s1 := Goto(s, p, Exclusive);
    assert Next(l, decode, s, e) == s1;
    if s.closed {
      var s2 := Goto(s, p, Closed);
      assert Next(l, decode, s1, e) == s2;
      hide Next;
      assert RunBy(l, decode, s2, p, h, src, 0) == s2 && RunBy(l, decode, s1, p, h, src, 1) == s2;
    } else {
      var s2, s3 := Goto(s.(closed := true), p, Releasing), Goto(s.(closed := true, released := true), p, Closed);
      assert Next(l, decode, s1, e) == s2 && Next(l, decode, s2, e) == s3;
      hide Next;
      assert RunBy(l, decode, s3, p, h, src, 0) == s3 && RunBy(l, decode, s2, p, h, src, 1) == s3;
      assert RunBy(l, decode, s1, p, h, src, 2) == s3;
    }
  }

  lemma ClosedOnce(l: Limits, decode: HeaderDecoder, s: State, e: Event)
    ensures s.closed ==> Next(l, decode, s, e).closed
  {
    hide Check, Capacity, Slots;
  }

  /** Once closed, always closed: no run gets to the library any more. */
  lemma {:induction false} NothingAfterClose(l: Limits, decode: HeaderDecoder, s: State, events: seq<Event>)
    requires Inv(l, s) && s.closed
    ensures var t := Exec(l, decode, s, events); t.closed && Slots(t) == {}
    decreases |events|
  {
    hide Next;
    if events == [] {
      forall p <- s.pcs ensures !s.pcs[p].Decoding? { assert PcInv(l, s, s.pcs[p]); }
    } else {
      ClosedOnce(l, decode, s, events[0]);
      NextKeepsInv(l, decode, s, events[0]);
      hide Inv;
      NothingAfterClose(l, decode, Next(l, decode, s, events[0]), events[1..]);
    }
  }
}
