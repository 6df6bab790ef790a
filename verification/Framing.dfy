/** Append-only logs of length-prefixed frames and their recovery
  (engine/crates/core/src/wal.rs, engine/crates/server/src/event_log.rs). How an entry is
  serialized is left open: a codec only has to read back what it wrote. */
module Framing {
  import opened Orders

  type Byte = b: int | 0 <= b < 256

  const PREFIX_LENGTH := 4
  const LENGTH_LIMIT := 0x1_0000_0000

  /** A log record: its sequence number and what it records. */
  datatype Entry<C> = Entry(number: nat, body: C)

  /** The command log writes lengths in little-endian order, the event log in big-endian. */
  datatype Codec<!C> = Codec(encode: Entry<C> -> seq<Byte>, decode: seq<Byte> -> Option<Entry<C>>, bigEndian: bool)

  ghost predicate Lawful<C(!new)>(codec: Codec<C>) {
    forall e :: codec.decode(codec.encode(e)) == Some(e)
  }

  // ---- Lengths -------------------------------------------------------------------

  function LittleEndian(n: nat): (b: seq<Byte>)
    requires n < LENGTH_LIMIT
    ensures |b| == PREFIX_LENGTH
  {
    [n % 256, n / 256 % 256, n / 65536 % 256, n / 16777216]
  }

  function Reversed(b: seq<Byte>): (r: seq<Byte>)
    requires |b| == PREFIX_LENGTH
    ensures |r| == PREFIX_LENGTH
  {
    [b[3], b[2], b[1], b[0]]
  }

  function ToBytes(n: nat, bigEndian: bool): (b: seq<Byte>)
    requires n < LENGTH_LIMIT
    ensures |b| == PREFIX_LENGTH
  {
    if bigEndian then Reversed(LittleEndian(n)) else LittleEndian(n)
  }

  function FromBytes(b: seq<Byte>, bigEndian: bool): (n: nat)
    requires |b| == PREFIX_LENGTH
  {
    var w: int, x: int, y: int, z: int := b[0], b[1], b[2], b[3];
    if bigEndian then z + 256 * y + 65536 * x + 16777216 * w else w + 256 * x + 65536 * y + 16777216 * z
  }

  /** Every length of 32 bits is read back. */
  lemma LengthRoundTrip(n: nat, bigEndian: bool)
    requires n <= 0xFFFF_FFFF
    ensures FromBytes(ToBytes(n, bigEndian), bigEndian) == n
  {
    assert n / 65536 == n / 256 / 256;
    assert n / 16777216 == n / 65536 / 256;
  }

  // ---- Frames --------------------------------------------------------------------

  predicate Fits<C>(codec: Codec<C>, e: Entry<C>) {
    |codec.encode(e)| < LENGTH_LIMIT
  }

  function Frame<C>(codec: Codec<C>, e: Entry<C>): (f: seq<Byte>)
    requires Fits(codec, e)
    ensures |f| == PREFIX_LENGTH + |codec.encode(e)|
  {
    ToBytes(|codec.encode(e)|, codec.bigEndian) + codec.encode(e)
  }

  ghost predicate AllFit<C>(codec: Codec<C>, es: seq<Entry<C>>) {
    forall e :: e in es ==> Fits(codec, e)
  }

  ghost function Frames<C>(codec: Codec<C>, es: seq<Entry<C>>): seq<Byte>
    requires AllFit(codec, es)
  {
    if es == [] then [] else Frames(codec, es[..|es| - 1]) + Frame(codec, es[|es| - 1])
  }

  // ---- Reading -------------------------------------------------------------------

  datatype Outcome<C> = Read(entry: Entry<C>, next: nat) | EndOfFile | Corrupt

  /** `read_one_entry`: fewer than four bytes count as a clean end, a payload that is cut short
    or does not decode as corruption. */
  function ReadOne<C>(codec: Codec<C>, file: seq<Byte>, pos: nat): (r: Outcome<C>)
    requires pos <= |file|
    ensures r.Read? ==> pos < r.next <= |file|
  {
    if |file| - pos < PREFIX_LENGTH then EndOfFile
    else
      var start := pos + PREFIX_LENGTH;
      var length := FromBytes(file[pos..start], codec.bigEndian);
      if |file| - start < length then Corrupt
      else
        match codec.decode(file[start..start + length])
        case None => Corrupt
        case Some(e) => Read(e, start + length)
  }

  /** The entries read from `pos` on, and what recovery leaves of the file. */
  function Scan<C>(codec: Codec<C>, file: seq<Byte>, pos: nat): (r: (seq<Entry<C>>, seq<Byte>))
    requires pos <= |file|
    ensures file[..pos] <= r.1 <= file
    decreases |file| - pos
  {
    match ReadOne(codec, file, pos)
    case EndOfFile => ([], file)
    case Corrupt => ([], file[..pos])
    case Read(e, next) =>
      assert file[..next][..pos] == file[..pos];
      var (es, left) := Scan(codec, file, next);
      ([e] + es, left)
  }

  /** `replay`: the entries, and the file with a corrupt tail cut off. */
  method Replay<C>(codec: Codec<C>, file: seq<Byte>) returns (entries: seq<Entry<C>>, left: seq<Byte>)
    ensures (entries, left) == Scan(codec, file, 0)
  {
    hide ReadOne;
    entries, left := [], file;
    var lastGood := 0;
    ghost var all := Scan(codec, file, 0);
    PrependNothing(all.0);
    while true
      invariant lastGood <= |file| && left == file
      invariant entries + Scan(codec, file, lastGood).0 == all.0 && Scan(codec, file, lastGood).1 == all.1
      decreases |file| - lastGood
    {
      var r := ReadOne(codec, file, lastGood);
      match r {
        case EndOfFile =>
          PrependNothing(entries);
          return;
        case Corrupt =>
          PrependNothing(entries);
          left := file[..lastGood];
          return;
        case Read(e, next) =>
          Prepend(entries, e, Scan(codec, file, next).0);
          entries := entries + [e];
          lastGood := next;
      }
    }
  }

  lemma PrependNothing<C>(es: seq<Entry<C>>)
    ensures [] + es == es == es + []
  {
  }

  lemma Prepend<C>(es: seq<Entry<C>>, e: Entry<C>, rest: seq<Entry<C>>)
    ensures es + ([e] + rest) == (es + [e]) + rest
  {
  }

  // ---- Recovery ------------------------------------------------------------------

  /** A frame is read back wherever it stands. */
  lemma FrameReads<C(!new)>(codec: Codec<C>, file: seq<Byte>, pos: nat, e: Entry<C>)
    requires Lawful(codec) && Fits(codec, e) && Holds(file, pos, Frame(codec, e))
    ensures ReadOne(codec, file, pos) == Read(e, pos + |Frame(codec, e)|)
  {
    var n := |codec.encode(e)|;
    var prefix := ToBytes(n, codec.bigEndian);
    LengthRoundTrip(n, codec.bigEndian);
    HoldsParts(file, pos, prefix, codec.encode(e));
    hide FromBytes, ToBytes;
  }

  lemma AllFitParts<C>(codec: Codec<C>, es: seq<Entry<C>>)
    requires AllFit(codec, es) && es != []
    ensures AllFit(codec, es[1..]) && AllFit(codec, es[..|es| - 1]) && Fits(codec, es[0])
  {
  }

  lemma {:induction false} FramesFront<C>(codec: Codec<C>, es: seq<Entry<C>>)
    requires AllFit(codec, es) && es != []
    ensures AllFit(codec, es[1..]) && Fits(codec, es[0])
    ensures Frames(codec, es) == Frame(codec, es[0]) + Frames(codec, es[1..])
  {
    AllFitParts(codec, es);
    hide Frame;
    if |es| == 1 {
      assert es[..0] == [] && es[1..] == [];
    } else {
      var front, last := es[..|es| - 1], es[|es| - 1];
      assert front[1..] == es[1..][..|es| - 2];
      FramesFront(codec, front);
      Regroup(Frame(codec, es[0]), Frames(codec, front[1..]), Frame(codec, last));
    }
  }

  lemma Regroup(a: seq<Byte>, b: seq<Byte>, c: seq<Byte>)
    ensures (a + b) + c == a + (b + c)
  {
  }

  lemma ScanNext<C>(codec: Codec<C>, file: seq<Byte>, pos: nat, e: Entry<C>, next: nat)
    requires pos <= |file| && ReadOne(codec, file, pos) == Read(e, next)
    ensures pos < next <= |file|
    ensures Scan(codec, file, pos) == ([e] + Scan(codec, file, next).0, Scan(codec, file, next).1)
  {
    hide ReadOne;
  }

  lemma ScanEnds<C>(codec: Codec<C>, file: seq<Byte>, pos: nat)
    requires pos <= |file| && !ReadOne(codec, file, pos).Read?
    ensures Scan(codec, file, pos) == ([], if ReadOne(codec, file, pos).Corrupt? then file[..pos] else file)
  {
    hide ReadOne;
  }

  /** `file` holds `part` from `pos` on. */
  predicate Holds(file: seq<Byte>, pos: nat, part: seq<Byte>) {
    pos + |part| <= |file| && file[pos..pos + |part|] == part
  }

  lemma HoldsParts(file: seq<Byte>, pos: nat, a: seq<Byte>, b: seq<Byte>)
    requires Holds(file, pos, a + b)
    ensures Holds(file, pos, a) && Holds(file, pos + |a|, b)
  {
    assert file[pos..pos + |a|] == (a + b)[..|a|];
    assert file[pos + |a|..pos + |a| + |b|] == (a + b)[|a|..];
  }

  /** Scanning passes over a list of frames. */
  lemma {:induction false} ScanFrames<C(!new)>(codec: Codec<C>, file: seq<Byte>, pos: nat, es: seq<Entry<C>>)
    requires Lawful(codec) && AllFit(codec, es) && Holds(file, pos, Frames(codec, es))
    ensures var (rest, left) := Scan(codec, file, pos + |Frames(codec, es)|);
      Scan(codec, file, pos) == (es + rest, left)
    decreases |es|
  {
    hide Scan, ReadOne, Frames, Frame, AllFit, Fits, Lawful;
    if es == [] {
      NoFrames(codec);
      PrependNothing(Scan(codec, file, pos).0);
    } else {
      FramesFront(codec, es);
      var first := Frame(codec, es[0]);
      HoldsParts(file, pos, first, Frames(codec, es[1..]));
      FrameReads(codec, file, pos, es[0]);
      ScanNext(codec, file, pos, es[0], pos + |first|);
      ScanFrames(codec, file, pos + |first|, es[1..]);
      Rejoin(es, Scan(codec, file, pos + |Frames(codec, es)|).0);
    }
  }

  lemma NoFrames<C>(codec: Codec<C>)
    ensures AllFit(codec, []) && Frames(codec, []) == []
  {
  }

  lemma Rejoin<C>(es: seq<Entry<C>>, rest: seq<Entry<C>>)
    requires es != []
    ensures [es[0]] + (es[1..] + rest) == es + rest
  {
  }

  /** A proper beginning of a frame. */
  predicate Torn<C>(codec: Codec<C>, tail: seq<Byte>, e: Entry<C>)
    requires Fits(codec, e)
  {
    tail < Frame(codec, e)
  }

  lemma TornReads<C>(codec: Codec<C>, file: seq<Byte>, pos: nat, tail: seq<Byte>, e: Entry<C>)
    requires Fits(codec, e) && Torn(codec, tail, e) && pos + |tail| == |file| && file[pos..] == tail
    ensures ReadOne(codec, file, pos) == if |tail| < PREFIX_LENGTH then EndOfFile else Corrupt
  {
    if |tail| >= PREFIX_LENGTH {
      var n := |codec.encode(e)|;
      LengthRoundTrip(n, codec.bigEndian);
      assert file[pos..pos + PREFIX_LENGTH] == tail[..PREFIX_LENGTH] == Frame(codec, e)[..PREFIX_LENGTH];
      assert Frame(codec, e)[..PREFIX_LENGTH] == ToBytes(n, codec.bigEndian);
      hide FromBytes, ToBytes;
    }
  }

  lemma Appended(a: seq<Byte>, b: seq<Byte>)
    ensures Holds(a + b, 0, a) && (a + b)[|a|..] == b && (a + b)[..|a|] == a
    ensures a + b == a <==> b == []
  {
    if b != [] { assert |a + b| != |a|; } else { assert a + b == a; }
  }

  /** Entries followed by a torn one are recovered exactly. The torn bytes are cut off, and
    just the frames left, if and only if there are none or at least four of them: a torn
    length prefix stays in the file. */
  lemma RecoversEntries<C(!new)>(codec: Codec<C>, es: seq<Entry<C>>, tail: seq<Byte>, e: Entry<C>)
    requires Lawful(codec) && AllFit(codec, es) && Fits(codec, e) && Torn(codec, tail, e)
    ensures var file := Frames(codec, es) + tail;
      && Scan(codec, file, 0).0 == es
      && Scan(codec, file, 0).1 == (if |tail| < PREFIX_LENGTH then file else Frames(codec, es))
      && (Scan(codec, file, 0).1 == Frames(codec, es) <==> tail == [] || PREFIX_LENGTH <= |tail|)
  {
    hide *;
    var frames := Frames(codec, es);
    var file := frames + tail;
    Appended(frames, tail);
    ScanFrames(codec, file, 0, es);
    TornReads(codec, file, |frames|, tail, e);
    ScanEnds(codec, file, |frames|);
    PrependNothing(es);
  }

  /** Frames alone are read back, and left as they are. */
  lemma ReadsBack<C(!new)>(codec: Codec<C>, es: seq<Entry<C>>)
    requires Lawful(codec) && AllFit(codec, es)
    ensures Scan(codec, Frames(codec, es), 0) == (es, Frames(codec, es))
  {
    hide *;
    var frames := Frames(codec, es);
    Appended(frames, []);
    ScanFrames(codec, frames, 0, es);
    NothingMore(codec, frames);
    PrependNothing(es);
  }

  lemma NothingMore<C>(codec: Codec<C>, file: seq<Byte>)
    ensures Scan(codec, file, |file|) == ([], file)
  {
  }

  /** What reading depends on. */
  lemma SameRead<C>(codec: Codec<C>, file: seq<Byte>, shorter: seq<Byte>, pos: nat)
    requires shorter <= file && pos <= |shorter|
    requires ReadOne(codec, file, pos).Read? && ReadOne(codec, file, pos).next <= |shorter|
    ensures ReadOne(codec, shorter, pos) == ReadOne(codec, file, pos)
  {
    var start, next := pos + PREFIX_LENGTH, ReadOne(codec, file, pos).next;
    assert shorter[pos..start] == file[pos..start];
    assert shorter[start..next] == file[start..next];
  }

  /** Recovery of any file whatever, however damaged, loses no entry it returned and has
    nothing left to do the second time. */
  lemma {:induction false} RecoveryIsStable<C>(codec: Codec<C>, file: seq<Byte>, pos: nat)
    requires pos <= |file|
    ensures var (es, left) := Scan(codec, file, pos); pos <= |left| && Scan(codec, left, pos) == (es, left)
    decreases |file| - pos
  {
    var (es, left) := Scan(codec, file, pos);
    match ReadOne(codec, file, pos)
    case EndOfFile =>
    case Corrupt => NothingMore(codec, left);
    case Read(e, next) =>
      RecoveryIsStable(codec, file, next);
      SameRead(codec, file, left, pos);
      hide ReadOne;
  }

  // ---- Appending after recovery --------------------------------------------------

  function LastNumber<C>(es: seq<Entry<C>>): nat {
    if es == [] then 0 else es[|es| - 1].number
  }

  lemma FramesPush<C>(codec: Codec<C>, es: seq<Entry<C>>, e: Entry<C>)
    requires AllFit(codec, es) && Fits(codec, e)
    ensures AllFit(codec, es + [e]) && Frames(codec, es + [e]) == Frames(codec, es) + Frame(codec, e)
  {
    assert (es + [e])[..|es|] == es;
  }

  /** Opening a log with a torn tail of no bytes or at least four, appending and reading gives
    the old entries and the new one under the next number. */
  lemma OpenAppendRead<C(!new)>(codec: Codec<C>, es: seq<Entry<C>>, tail: seq<Byte>, torn: Entry<C>, body: C)
    requires Lawful(codec) && AllFit(codec, es) && Fits(codec, torn) && Torn(codec, tail, torn)
    requires tail == [] || PREFIX_LENGTH <= |tail|
    requires Fits(codec, Entry(LastNumber(es) + 1, body))
    ensures var (read, left) := Scan(codec, Frames(codec, es) + tail, 0);
      var e := Entry(LastNumber(read) + 1, body);
      Fits(codec, e) && Scan(codec, left + Frame(codec, e), 0) == (es + [e], left + Frame(codec, e))
  {
    hide *;
    RecoversEntries(codec, es, tail, torn);
    var e := Entry(LastNumber(es) + 1, body);
    FramesPush(codec, es, e);
    ReadsBack(codec, es + [e]);
  }

  lemma CorruptTail<C(!new)>(codec: Codec<C>, es: seq<Entry<C>>, tail: seq<Byte>)
    requires Lawful(codec) && AllFit(codec, es)
    requires ReadOne(codec, Frames(codec, es) + tail, |Frames(codec, es)|) == Corrupt
    ensures Scan(codec, Frames(codec, es) + tail, 0) == (es, Frames(codec, es))
  {
    hide *;
    var frames := Frames(codec, es);
    Appended(frames, tail);
    ScanFrames(codec, frames + tail, 0, es);
    ScanEnds(codec, frames + tail, |frames|);
    PrependNothing(es);
  }

  function Power(k: nat): (p: nat)
    ensures 0 < p
  {
    if k == 0 then 1 else 256 * Power(k - 1)
  }

  /** Read `k` bytes too early, a little-endian length of `n` is longer than the file. */
  predicate Overshoots(k: nat, n: nat)
    requires k <= PREFIX_LENGTH
  {
    n + k < Power(k) * (n % Power(PREFIX_LENGTH - k))
  }

  /** It is, for every payload below 64 kB behind one or two bytes, for payloads below 16 MB
    behind one, and behind three unless the length is a multiple of 256. */
  lemma OvershootsWhen(n: nat)
    requires 0 < n
    ensures n < 0x100_0000 ==> Overshoots(1, n)
    ensures n < 0x1_0000 ==> Overshoots(2, n)
    ensures n < 0xFF_FFFD && n % 256 != 0 ==> Overshoots(3, n)
  {
    assert Power(1) == 256 && Power(2) == 0x1_0000 && Power(3) == 0x100_0000;
  }

  /** One to three bytes in front of a frame are taken for the low bytes of its length. */
  lemma ShiftedLength(n: nat, stray: seq<Byte>)
    requires n < LENGTH_LIMIT && 1 <= |stray| < PREFIX_LENGTH
    ensures Power(|stray|) * (n % Power(PREFIX_LENGTH - |stray|)) <= FromBytes((stray + LittleEndian(n))[..PREFIX_LENGTH], false)
  {
    assert Power(1) == 256 && Power(2) == 0x1_0000 && Power(3) == 0x100_0000;
    assert n % 0x1_0000 == n % 256 + 256 * (n / 256 % 256);
    assert n % 0x100_0000 == n % 0x1_0000 + 0x1_0000 * (n / 0x1_0000 % 256);
  }

  lemma ShiftedIsCorrupt<C>(codec: Codec<C>, file: seq<Byte>, pos: nat, stray: seq<Byte>, e: Entry<C>)
    requires Fits(codec, e) && !codec.bigEndian && 1 <= |stray| < PREFIX_LENGTH && pos <= |file|
    requires file[pos..] == stray + Frame(codec, e) && Overshoots(|stray|, |codec.encode(e)|)
    ensures ReadOne(codec, file, pos) == Corrupt
  {
    hide FromBytes, LittleEndian, Power;
    var n := |codec.encode(e)|;
    ShiftedLength(n, stray);
    assert file[pos..pos + PREFIX_LENGTH] == file[pos..][..PREFIX_LENGTH] == (stray + LittleEndian(n))[..PREFIX_LENGTH];
  }

  /** In a little-endian log an entry appended behind a torn tail survives the next recovery if
    and only if the tail is empty or has its whole length prefix: a torn prefix, whatever its
    bytes, is left in the file, the new frame's length is read at an offset, as one the file
    does not have, and recovery cuts the new entry off. */
  lemma AppendSurvivesIff<C(!new)>(codec: Codec<C>, es: seq<Entry<C>>, tail: seq<Byte>, torn: Entry<C>, body: C)
    requires Lawful(codec) && AllFit(codec, es) && Fits(codec, torn) && Torn(codec, tail, torn) && !codec.bigEndian
    requires Fits(codec, Entry(LastNumber(es) + 1, body))
    requires 1 <= |tail| < PREFIX_LENGTH ==> Overshoots(|tail|, |codec.encode(Entry(LastNumber(es) + 1, body))|)
    ensures var (read, left) := Scan(codec, Frames(codec, es) + tail, 0);
      var e := Entry(LastNumber(read) + 1, body);
      && Fits(codec, e)
      && Scan(codec, left + Frame(codec, e), 0).0 == (if tail == [] || PREFIX_LENGTH <= |tail| then es + [e] else es)
  {
    hide *;
    RecoversEntries(codec, es, tail, torn);
    var e := Entry(LastNumber(es) + 1, body);
    if tail == [] || PREFIX_LENGTH <= |tail| {
      OpenAppendRead(codec, es, tail, torn, body);
    } else {
      TornPrefixLosesAppend(codec, es, tail, e);
      Regroup(Frames(codec, es), tail, Frame(codec, e));
    }
  }

  /** The bytes lost behind a torn prefix are the whole new frame. */
  lemma TornPrefixLosesAppend<C(!new)>(codec: Codec<C>, es: seq<Entry<C>>, tail: seq<Byte>, e: Entry<C>)
    requires Lawful(codec) && AllFit(codec, es) && Fits(codec, e) && !codec.bigEndian
    requires 1 <= |tail| < PREFIX_LENGTH && Overshoots(|tail|, |codec.encode(e)|)
    ensures Scan(codec, Frames(codec, es) + (tail + Frame(codec, e)), 0) == (es, Frames(codec, es))
  {
    hide *;
    var frames := Frames(codec, es);
    Appended(frames, tail + Frame(codec, e));
    ShiftedIsCorrupt(codec, frames + (tail + Frame(codec, e)), |frames|, tail, e);
    CorruptTail(codec, es, tail + Frame(codec, e));
  }

  // ---- The two logs --------------------------------------------------------------

  /** Numbered from one on, without a gap. */
  predicate Dense<C>(es: seq<Entry<C>>) {
    forall i :: 0 <= i < |es| ==> es[i].number == i + 1
  }

  /** Numbered in increasing order. */
  predicate Ascending<C>(es: seq<Entry<C>>) {
    forall i, j :: 0 <= i < j < |es| ==> es[i].number < es[j].number
  }

  /** The command log (wal.rs). */
  class Wal<C(!new)> {
    const codec: Codec<C>
    var file: seq<Byte>
    var sequence: nat
    ghost var entries: seq<Entry<C>>

    /** The file holds the entries, numbered upwards to at most `sequence`. */
    ghost predicate Valid()
      reads this
    {
      && Lawful(codec) && AllFit(codec, entries) && file == Frames(codec, entries)
      && Ascending(entries) && LastNumber(entries) <= sequence
    }

    /** Opening recovers the file and takes up the last number. */
    constructor Open(codec: Codec<C>, existing: seq<Byte>)
      requires Lawful(codec)
      ensures this.codec == codec && entries == Scan(codec, existing, 0).0
      ensures file == Scan(codec, existing, 0).1 && sequence == LastNumber(entries)
    {
      var read, left := Replay(codec, existing);
      this.codec, file, entries, sequence := codec, left, read, LastNumber(read);
    }

    /** The number is taken before the entry is known to fit: a failed append leaves a gap. */
    method Append(command: C) returns (ok: bool)
      requires Valid()
      modifies this
      ensures Valid() && sequence == old(sequence) + 1
      ensures ok == Fits(codec, Entry(sequence, command))
      ensures entries == if ok then old(entries) + [Entry(sequence, command)] else old(entries)
      ensures ok && old(sequence) == LastNumber(old(entries)) && Dense(old(entries)) ==> Dense(entries)
    {
      sequence := sequence + 1;
      var entry := Entry(sequence, command);
      var bytes := codec.encode(entry);
      if |bytes| >= LENGTH_LIMIT {
        return false;
      }
      FramesPush(codec, entries, entry);
      UpTo(entries, sequence);
      file := file + ToBytes(|bytes|, codec.bigEndian);
      file := file + bytes;
      Regroup(Frames(codec, entries), ToBytes(|bytes|, codec.bigEndian), bytes);
      entries := entries + [entry];
      return true;
    }
  }

  /** All numbers are below the next one. */
  lemma UpTo<C>(es: seq<Entry<C>>, next: nat)
    requires Ascending(es) && LastNumber(es) < next
    ensures forall i :: 0 <= i < |es| ==> es[i].number < next
    ensures Dense(es) && es != [] ==> LastNumber(es) == |es|
  {
  }

  /** The event log (event_log.rs): the number is taken only once the entry is written. */
  class EventLog<C(!new)> {
    const codec: Codec<C>
    var file: seq<Byte>
    var sequence: nat
    ghost var entries: seq<Entry<C>>

    ghost predicate Valid()
      reads this
    {
      && Lawful(codec) && AllFit(codec, entries) && file == Frames(codec, entries)
      && Dense(entries) && sequence == |entries|
    }

    constructor Open(codec: Codec<C>, existing: seq<Byte>)
      requires Lawful(codec)
      ensures this.codec == codec && entries == Scan(codec, existing, 0).0
      ensures file == Scan(codec, existing, 0).1 && sequence == LastNumber(entries)
    {
      var read, left := Replay(codec, existing);
      this.codec, file, entries, sequence := codec, left, read, LastNumber(read);
    }

    /** Every event that is written gets the number after the one before it. */
    method AppendNext(event: C) returns (written: Option<Entry<C>>)
      requires Valid()
      modifies this
      ensures Valid()
      ensures var next := Entry(old(sequence) + 1, event);
        if Fits(codec, next) then written == Some(next) && entries == old(entries) + [next]
        else written == None && entries == old(entries) && file == old(file)
    {
      var sequenced := Entry(sequence + 1, event);
      var payload := codec.encode(sequenced);
      if |payload| >= LENGTH_LIMIT {
        return None;
      }
      FramesPush(codec, entries, sequenced);
      file := file + ToBytes(|payload|, codec.bigEndian);
      file := file + payload;
      Regroup(Frames(codec, entries), ToBytes(|payload|, codec.bigEndian), payload);
      entries := entries + [sequenced];
      sequence := sequenced.number;
      return Some(sequenced);
    }
  }
}
