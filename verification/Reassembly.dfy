/** Putting the fragments of one USB/IP message back together, one message at a time. */
module Reassembly {
  import opened Base
  import opened Wire

  const MIN_SIZE: nat := 48

  // A message body under the id its fragments carry.
  datatype Message = Message(id: u64, body: bytes)

  /** What a reassembler remembers between two fragments. */
  datatype Buffer = Buffer(
    active: Option<u64>,
    lease: u64,
    total: nat,
    fragments: nat,
    held: bytes,
    maxSize: nat,
    maxFragments: nat)

  predicate LimitsOk(maxSize: nat, maxFragments: nat) {
    MIN_SIZE <= maxSize <= MAX_REASSEMBLY && 1 <= maxFragments <= MAX_FRAGMENTS
  }

  function Empty(maxSize: nat, maxFragments: nat): Buffer {
    Buffer(None, 0, 0, 0, [], maxSize, maxFragments)
  }

  function Cleared(b: Buffer): Buffer {
    Empty(b.maxSize, b.maxFragments)
  }

  // Does a fragment continue the message under way?
  predicate Continues(b: Buffer, f: Fragment)
    requires b.active.Some?
  {
    && b.active.value == f.pduId
    && b.lease == f.leaseToken
    && b.total == f.totalLength
    && f.offset == |b.held|
  }

  /** One fragment arrives: the next buffer, and the message it completes if it does. */
  function Push(b: Buffer, f: Fragment): (Buffer, Result<Option<Message>>) {
    if !FragmentOk(f) then (b, Err(Malformed))
    else if f.totalLength > b.maxSize then (Cleared(b), Err(LimitExceeded))
    else if b.active.Some? && !Continues(b, f) then (Cleared(b), Err(SequenceError))
    else if b.active.None? && f.offset != 0 then (b, Err(SequenceError))
    else
      var started := if b.active.Some? then b
                     else b.(active := Some(f.pduId), lease := f.leaseToken, total := f.totalLength, held := []);
      var counted := started.(fragments := started.fragments + 1);
      if counted.fragments > counted.maxFragments then (Cleared(b), Err(LimitExceeded))
      else
        var grown := counted.(held := counted.held + f.data);
        if f.more then (grown, Ok(None))
        else if |grown.held| != grown.total then (Cleared(b), Err(Malformed))
        else if grown.active.None? then (grown, Err(Internal))
        else (Cleared(b), Ok(Some(Message(grown.active.value, grown.held))))
  }

  /** Fragments arriving one after another: the final buffer and every outcome. */
  function Feed(b: Buffer, fs: seq<Fragment>): (r: (Buffer, seq<Result<Option<Message>>>))
    ensures |r.1| == |fs|
  {
    if fs == [] then (b, [])
    else
      var (before, outcomes) := Feed(b, fs[..|fs| - 1]);
      var (after, outcome) := Push(before, fs[|fs| - 1]);
      (after, outcomes + [outcome])
  }

  // ------------------------------------------------------------------- bounds

  predicate Idle(b: Buffer) {
    b == Cleared(b)
  }

  /** Idle, or strictly inside a message that fits both limits. */
  predicate Bounded(b: Buffer) {
    && LimitsOk(b.maxSize, b.maxFragments)
    && (b.active.None? ==> Idle(b))
    && (b.active.Some? ==>
          && 0 < |b.held| < b.total <= b.maxSize
          && 1 <= b.fragments <= b.maxFragments)
  }

  /**
   Every push keeps the bounds. Under them the two defensive branches are dead:
   only an ill-formed fragment is Malformed, and Internal never happens.
   */
  lemma PushBounded(b: Buffer, f: Fragment)
    requires Bounded(b)
    ensures Bounded(Push(b, f).0)
    ensures Push(b, f).1 == Err(Malformed) <==> !FragmentOk(f)
    ensures Push(b, f).1 != Err(Internal)
  {
  }

  /** An accepted fragment continues the message under way, or starts one, and ends it exactly at its length. */
  lemma PushAccepted(b: Buffer, f: Fragment)
    requires Bounded(b) && Push(b, f).1.Ok?
    ensures FragmentOk(f) && f.totalLength <= b.maxSize && b.fragments < b.maxFragments
    ensures if b.active.Some? then Continues(b, f) else f.offset == 0 && b.held == []
    ensures Push(b, f) ==
      if f.more then
        (Buffer(Some(f.pduId), f.leaseToken, f.totalLength, b.fragments + 1, b.held + f.data, b.maxSize,
                b.maxFragments),
         Ok(None))
      else (Cleared(b), Ok(Some(Message(f.pduId, b.held + f.data))))
    ensures !f.more ==> |b.held + f.data| == f.totalLength
  {
  }

  /** What becomes of any fragment: which are refused, with which error, and what is forgotten with them. */
  lemma PushVerdict(b: Buffer, f: Fragment)
    requires Bounded(b)
    ensures var cleared := Buffer(None, 0, 0, 0, [], b.maxSize, b.maxFragments);
      Push(b, f) ==
        if !FragmentOk(f) then (b, Err(Malformed))
        else if f.totalLength > b.maxSize then (cleared, Err(LimitExceeded))
        else if b.active.Some? && (f.pduId != b.active.value || f.leaseToken != b.lease || f.totalLength != b.total
                                   || f.offset != |b.held|) then (cleared, Err(SequenceError))
        else if b.active.None? && f.offset != 0 then (b, Err(SequenceError))
        else if b.fragments == b.maxFragments then (cleared, Err(LimitExceeded))
        else if f.offset as int + |f.data| < f.totalLength
        then (Buffer(Some(f.pduId), f.leaseToken, f.totalLength, b.fragments + 1, b.held + f.data, b.maxSize,
                     b.maxFragments), Ok(None))
        else (cleared, Ok(Some(Message(f.pduId, b.held + f.data))))
  {
  }

  lemma PushRefused(b: Buffer, f: Fragment)
    requires Bounded(b) && Push(b, f).1.Err?
    ensures Push(b, f).0 == (if FragmentOk(f) then Cleared(b) else b)
  {
  }

  lemma {:induction false} FeedBounded(b: Buffer, fs: seq<Fragment>)
    requires Bounded(b)
    ensures Bounded(Feed(b, fs).0)
    ensures Feed(b, fs).0.maxSize == b.maxSize && Feed(b, fs).0.maxFragments == b.maxFragments
  {
    if fs != [] {
      FeedBounded(b, fs[..|fs| - 1]);
      PushBounded(Feed(b, fs[..|fs| - 1]).0, fs[|fs| - 1]);
    }
  }

  // ------------------------------------------------------------------ tilings

  function Joined(run: seq<Fragment>): bytes {
    if run == [] then [] else Joined(run[..|run| - 1]) + run[|run| - 1].data
  }

  /** Well-formed fragments of one message, each starting where the one before it ended. */
  predicate Tiles(run: seq<Fragment>, id: u64, lease: u64, total: nat) {
    run == [] ||
    var before, f := run[..|run| - 1], run[|run| - 1];
    && Tiles(before, id, lease, total)
    && FragmentOk(f)
    && f.pduId == id && f.leaseToken == lease && f.totalLength == total
    && f.offset == |Joined(before)|
  }

  /** The fragments of one message from its first byte to its last. */
  predicate Whole(run: seq<Fragment>, m: Message) {
    && run != []
    && Tiles(run, m.id, run[0].leaseToken, |m.body|)
    && Joined(run) == m.body
  }

  /** The fragments from index k on are all the fragments of a message. */
  predicate WholeFrom(fs: seq<Fragment>, k: nat, m: Message) {
    k <= |fs| && Whole(fs[k..], m)
  }

  // The buffer holds exactly the last b.fragments fragments that arrived.
  predicate Holds(b: Buffer, fs: seq<Fragment>) {
    && Bounded(b)
    && (b.active.Some? ==>
          && b.fragments <= |fs|
          && var run := fs[|fs| - b.fragments..];
             && Tiles(run, b.active.value, b.lease, b.total)
             && Joined(run) == b.held)
  }

  lemma {:induction false} TilesHead(run: seq<Fragment>, id: u64, lease: u64, total: nat)
    requires run != [] && Tiles(run, id, lease, total)
    ensures run[0].leaseToken == lease && run[0].pduId == id && run[0].totalLength == total
  {
    if |run| > 1 {
      TilesHead(run[..|run| - 1], id, lease, total);
    }
  }

  lemma TilesGrow(before: seq<Fragment>, f: Fragment, id: u64, lease: u64, total: nat)
    requires Tiles(before, id, lease, total)
    requires FragmentOk(f) && f.pduId == id && f.leaseToken == lease && f.totalLength == total
    requires f.offset == |Joined(before)|
    ensures Tiles(before + [f], id, lease, total)
    ensures Joined(before + [f]) == Joined(before) + f.data
  {
    assert (before + [f])[..|before|] == before;
  }

  // The well-formed fragments of a stream; a frame decoder passes on no others.
  function WellFormed(fs: seq<Fragment>): seq<Fragment> {
    if fs == [] then []
    else WellFormed(fs[..|fs| - 1]) + (if FragmentOk(fs[|fs| - 1]) then [fs[|fs| - 1]] else [])
  }

  lemma Suffix(fs: seq<Fragment>, f: Fragment, n: nat)
    requires n <= |fs|
    ensures (fs + [f])[n..] == fs[n..] + [f]
  {
  }

  // The fragments held and the one that continues them.
  lemma HeldGrows(b: Buffer, fs: seq<Fragment>, f: Fragment)
    requires Holds(b, fs) && FragmentOk(f)
    requires if b.active.Some? then Continues(b, f) else f.offset == 0
    ensures b.fragments <= |fs|
    ensures var run := (fs + [f])[|fs| - b.fragments..];
      && run != [] && run[0].leaseToken == f.leaseToken
      && Tiles(run, f.pduId, f.leaseToken, f.totalLength) && Joined(run) == b.held + f.data
  {
    hide FragmentOk, Tiles, Joined;
    var n := |fs| - b.fragments;
    if b.active.None? {
      TilesNone(f.pduId, f.leaseToken, f.totalLength);
      assert fs[n..] == [];
    }
    TilesGrow(fs[n..], f, f.pduId, f.leaseToken, f.totalLength);
    Suffix(fs, f, n);
    TilesHead(fs[n..] + [f], f.pduId, f.leaseToken, f.totalLength);
  }

  lemma PushHolds(b: Buffer, fs: seq<Fragment>, f: Fragment)
    requires Holds(b, fs) && FragmentOk(f)
    ensures Holds(Push(b, f).0, fs + [f])
    ensures var r := Push(b, f).1;
      r.Ok? && r.value.Some? ==>
        && b.fragments <= |fs|
        && |r.value.value.body| <= b.maxSize && b.fragments < b.maxFragments
        && Whole((fs + [f])[|fs| - b.fragments..], r.value.value)
  {
    hide Push, FragmentOk, Tiles, Joined;
    PushBounded(b, f);
    if Push(b, f).1.Ok? {
      PushAccepted(b, f);
      HeldGrows(b, fs, f);
    } else {
      PushRefused(b, f);
    }
  }

  lemma TilesNone(id: u64, lease: u64, total: nat)
    ensures Tiles([], id, lease, total) && Joined([]) == []
  {
  }

  lemma {:induction false} FeedHolds(b: Buffer, fs: seq<Fragment>)
    requires Bounded(b) && Idle(b)
    ensures Holds(Feed(b, fs).0, WellFormed(fs))
  {
    if fs != [] {
      var before, f := fs[..|fs| - 1], fs[|fs| - 1];
      FeedHolds(b, before);
      if FragmentOk(f) {
        PushHolds(Feed(b, before).0, WellFormed(before), f);
      } else {
        assert WellFormed(fs) == WellFormed(before);
      }
    }
  }

  /**
   Soundness for any stream of fragments, hostile ones included: when the last
   one completes a message, the well-formed fragments that arrived last, without
   a gap, are all the fragments of that message, and neither limit is exceeded.
   */
  lemma DeliveredIsWhole(maxSize: nat, maxFragments: nat, fs: seq<Fragment>, f: Fragment, m: Message)
    requires LimitsOk(maxSize, maxFragments)
    requires Push(Feed(Empty(maxSize, maxFragments), fs).0, f).1 == Ok(Some(m))
    ensures exists k: nat :: WholeFrom(WellFormed(fs) + [f], k, m) && |WellFormed(fs)| < k + maxFragments
    ensures |m.body| <= maxSize
  {
    hide Push, FragmentOk;
    var b := Empty(maxSize, maxFragments);
    FeedHolds(b, fs);
    FeedBounded(b, fs);
    var mid, before := Feed(b, fs).0, WellFormed(fs);
    PushAccepted(mid, f);
    PushHolds(mid, before, f);
    assert WholeFrom(before + [f], |before| - mid.fragments, m);
  }

  // Before its last fragment a tiling is strictly shorter than the message.
  lemma {:induction false} TilesShorter(run: seq<Fragment>, k: nat, id: u64, lease: u64, total: nat)
    requires Tiles(run, id, lease, total) && k <= |run|
    ensures Tiles(run[..k], id, lease, total)
    ensures |Joined(run[..k])| <= |Joined(run)|
    ensures k < |run| ==> |Joined(run[..k])| < |Joined(run)|
  {
    if k == |run| {
      assert run[..k] == run;
    } else {
      TilesShorter(run[..|run| - 1], k, id, lease, total);
      assert run[..|run| - 1][..k] == run[..k];
    }
  }

  function Nones(n: nat): (s: seq<Result<Option<Message>>>)
    ensures |s| == n
  {
    seq(n, _ => Ok(None))
  }

  lemma {:induction false} FeedPart(b: Buffer, run: seq<Fragment>, k: nat, m: Message)
    requires Bounded(b) && Idle(b) && Whole(run, m)
    requires |m.body| <= b.maxSize && |run| <= b.maxFragments && k < |run|
    ensures Feed(b, run[..k]).1 == Nones(k)
    ensures var mid := Feed(b, run[..k]).0;
      if k == 0 then mid == b
      else mid == Buffer(Some(m.id), run[0].leaseToken, |m.body|, k, Joined(run[..k]), b.maxSize, b.maxFragments)
  {
    if k != 0 {
      FeedPart(b, run, k - 1, m);
      assert run[..k][..k - 1] == run[..k - 1];
      TilesShorter(run, k, m.id, run[0].leaseToken, |m.body|);
      assert Nones(k - 1) + [Ok(None)] == Nones(k);
    }
  }

  /**
   Completeness: the fragments of a message, in order and within both limits,
   bring an idle reassembler to deliver it with the last of them and not before,
   and leave it idle.
   */
  lemma WholeIsDelivered(b: Buffer, run: seq<Fragment>, m: Message)
    requires Bounded(b) && Idle(b) && Whole(run, m)
    requires |m.body| <= b.maxSize && |run| <= b.maxFragments
    ensures Feed(b, run) == (b, Nones(|run| - 1) + [Ok(Some(m))])
  {
    FeedPart(b, run, |run| - 1, m);
  }

  // ------------------------------------------------------------ fragmentation

  const CHUNK: nat := MAX_PAYLOAD - FRAGMENT_PREFIX_SIZE

  function DivCeil(a: nat, b: nat): nat
    requires b > 0
  {
    if a % b == 0 then a / b else a / b + 1
  }

  // The fragment of a message that starts at an offset.
  function Piece(lease: u64, m: Message, offset: nat): Fragment
    requires offset < |m.body| <= U32_MAX
  {
    var end := Min(offset + CHUNK, |m.body|);
    Fragment(lease, m.id, |m.body|, offset, m.body[offset..end], end != |m.body|)
  }

  /** The fragments a sender cuts from an offset to the end of a message. */
  function Pieces(lease: u64, m: Message, offset: nat): seq<Fragment>
    requires offset <= |m.body| <= U32_MAX
    decreases |m.body| - offset
  {
    if offset == |m.body| then []
    else [Piece(lease, m, offset)] + Pieces(lease, m, Min(offset + CHUNK, |m.body|))
  }

  lemma CountStep(n: nat)
    requires n > 0
    ensures DivCeil(n, CHUNK) == 1 + DivCeil(n - Min(CHUNK, n), CHUNK)
  {
    if n >= CHUNK {
      assert n / CHUNK == (n - CHUNK) / CHUNK + 1;
      assert n % CHUNK == (n - CHUNK) % CHUNK;
    }
  }

  /** The loop cuts exactly as many fragments as the guard before it computed, each of them valid. */
  lemma {:induction false} PiecesCount(lease: u64, m: Message, offset: nat)
    requires lease != 0 && m.id != 0
    requires offset <= |m.body| <= MAX_REASSEMBLY
    ensures |Pieces(lease, m, offset)| == DivCeil(|m.body| - offset, CHUNK)
    ensures forall i :: 0 <= i < |Pieces(lease, m, offset)| ==>
      var f := Pieces(lease, m, offset)[i];
      && FragmentOk(f)
      && |PutFragment(f)| <= MAX_PAYLOAD
      && f.more == (i + 1 < |Pieces(lease, m, offset)|)
    decreases |m.body| - offset
  {
    if offset < |m.body| {
      var next := Min(offset + CHUNK, |m.body|);
      PiecesCount(lease, m, next);
      CountStep(|m.body| - offset);
      assert next == |m.body| ==> Pieces(lease, m, next) == [];
      assert next < |m.body| ==> Pieces(lease, m, next) != [];
    }
  }

  lemma PieceValid(lease: u64, m: Message, offset: nat)
    requires lease != 0 && m.id != 0
    requires offset < |m.body| <= MAX_REASSEMBLY
    ensures FragmentOk(Piece(lease, m, offset))
    ensures m.body[..offset] + Piece(lease, m, offset).data == m.body[..Min(offset + CHUNK, |m.body|)]
  {
  }

  lemma PiecesFirst(lease: u64, m: Message, offset: nat)
    requires offset < |m.body| <= U32_MAX
    ensures Pieces(lease, m, offset) == [Piece(lease, m, offset)] + Pieces(lease, m, Min(offset + CHUNK, |m.body|))
  {
    hide Piece;
  }

  lemma {:induction false} PiecesTile(lease: u64, m: Message, offset: nat, before: seq<Fragment>)
    requires lease != 0 && m.id != 0
    requires offset <= |m.body| <= MAX_REASSEMBLY
    requires Tiles(before, m.id, lease, |m.body|) && Joined(before) == m.body[..offset]
    ensures Tiles(before + Pieces(lease, m, offset), m.id, lease, |m.body|)
    ensures Joined(before + Pieces(lease, m, offset)) == m.body
    decreases |m.body| - offset
  {
    hide Tiles, Joined, FragmentOk;
    if offset == |m.body| {
      assert before + [] == before;
      assert m.body[..offset] == m.body;
    } else {
      hide Pieces;
      PiecesFirst(lease, m, offset);
      var f := Piece(lease, m, offset);
      var next := Min(offset + CHUNK, |m.body|);
      PieceValid(lease, m, offset);
      TilesGrow(before, f, m.id, lease, |m.body|);
      PiecesTile(lease, m, next, before + [f]);
      assert before + Pieces(lease, m, offset) == before + [f] + Pieces(lease, m, next);
    }
  }

  /**
   Fragmentation loses nothing: the pieces of a message, pushed in order into an
   idle reassembler with room for it, give the message back under its id with the
   last piece, nothing before it, and leave the reassembler idle.
   */
  lemma PiecesReassemble(b: Buffer, lease: u64, m: Message)
    requires Bounded(b) && Idle(b)
    requires lease != 0 && m.id != 0 && 0 < |m.body| <= b.maxSize
    requires DivCeil(|m.body|, CHUNK) <= b.maxFragments
    ensures var run := Pieces(lease, m, 0);
      && run != []
      && Whole(run, m)
      && Feed(b, run) == (b, Nones(|run| - 1) + [Ok(Some(m))])
  {
    var run := Pieces(lease, m, 0);
    PiecesCount(lease, m, 0);
    PiecesTile(lease, m, 0, []);
    assert [] + run == run;
    assert run[0].leaseToken == lease;
    WholeIsDelivered(b, run, m);
  }

  // ------------------------------------------------------------------ objects

  class Reassembler {
    var active: Option<u64>
    var lease: u64
    var total: nat
    var fragments: nat
    var held: bytes
    const maxSize: nat
    const maxFragments: nat

    function Model(): Buffer
      reads this
    {
      Buffer(active, lease, total, fragments, held, maxSize, maxFragments)
    }

    constructor (maxSize: nat, maxFragments: nat)
      ensures Model() == Empty(maxSize, maxFragments)
    {
      active, lease, total, fragments, held := None, 0, 0, 0, [];
      this.maxSize, this.maxFragments := maxSize, maxFragments;
    }

    method Clear()
      modifies this
      ensures Model() == Cleared(old(Model()))
    {
      active, lease, total, fragments, held := None, 0, 0, 0, [];
    }

    method PushFragment(f: Fragment) returns (r: Result<Option<Message>>)
      modifies this
      ensures (Model(), r) == Push(old(Model()), f)
    {
      if !FragmentOk(f) {
        return Err(Malformed);
      }
      if f.totalLength > maxSize {
        Clear();
        return Err(LimitExceeded);
      }
      if active.Some? {
        if active.value != f.pduId || lease != f.leaseToken || total != f.totalLength || f.offset != |held| {
          Clear();
          return Err(SequenceError);
        }
      } else {
        if f.offset != 0 {
          return Err(SequenceError);
        }
        active, lease, total, held := Some(f.pduId), f.leaseToken, f.totalLength, [];
      }
      fragments := fragments + 1;
      if fragments > maxFragments {
        Clear();
        return Err(LimitExceeded);
      }
      held := held + f.data;
      if f.more {
        return Ok(None);
      }
      if |held| != total {
        // The length check of the program: a last fragment always ends its message exactly.
        assert false;
      }
      r := Ok(Some(Message(active.value, held)));
      active, lease, total, fragments, held := None, 0, 0, 0, [];
    }
  }
}
