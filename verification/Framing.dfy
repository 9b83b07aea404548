// Decoding a byte stream that arrives in arbitrary pieces. The decoder is any function whose verdict on
// a prefix does not change when bytes follow; the result must not depend on where the stream was cut.
module Framing {
  import opened EventTypes

  type Bytes = seq<bv8>

  /** One attempt at the front of the buffer. */
  datatype Verdict = Frame(event: Event, length: nat) | NeedMore | Corrupt

  type Decoder = Bytes -> Verdict

  /** A frame consumes at least one byte and no more than there are. */
  ghost predicate Progressive(d: Decoder) {
    forall p {:trigger d(p)} :: d(p).Frame? ==> 1 <= d(p).length <= |p|
  }

  /** A frame or a corruption verdict stands when more bytes follow. */
  ghost predicate PrefixStable(d: Decoder) {
    Progressive(d) && forall p, q {:trigger d(p + q)} :: !d(p).NeedMore? ==> d(p + q) == d(p)
  }

  datatype Status = Ok | Eof | CorruptStream

  /** Events decoded, bytes left over, and how it ended. */
  datatype Outcome = Outcome(events: seq<Event>, rest: Bytes, status: Status)

  /** Decodes as far as possible in one go; after corruption the rest is of no use. */
  ghost function Greedy(d: Decoder, buf: Bytes): Outcome
    requires Progressive(d)
    decreases |buf|
  {
    if buf == [] then Outcome([], [], Ok) else
    match d(buf)
    case NeedMore => Outcome([], buf, Ok)
    case Corrupt => Outcome([], buf, CorruptStream)
    case Frame(e, n) =>
      var o := Greedy(d, buf[n..]);
      o.(events := [e] + o.events)
  }

  /** One read: an empty one is the end of the stream, a corrupt one ends it with the buffer undrained. */
  ghost function Batch(d: Decoder, buf: Bytes, chunk: Bytes): Outcome
    requires Progressive(d)
  {
    if chunk == [] then Outcome([], buf, Eof) else
    var o := Greedy(d, buf + chunk);
    if o.status == CorruptStream then o.(rest := buf + chunk) else o
  }

  /** A connection: batch after batch until the first failure. */
  ghost function Session(d: Decoder, buf: Bytes, chunks: seq<Bytes>): Outcome
    requires Progressive(d)
    decreases |chunks|
  {
    if chunks == [] then Outcome([], buf, Ok) else
    var o := Batch(d, buf, chunks[0]);
    if o.status != Ok then o else
    var r := Session(d, o.rest, chunks[1..]);
    r.(events := o.events + r.events)
  }

  function Concat(chunks: seq<Bytes>): Bytes {
    if chunks == [] then [] else chunks[0] + Concat(chunks[1..])
  }

  /** What arrives before the stream ends. */
  function UpToEof(chunks: seq<Bytes>): seq<Bytes> {
    if chunks == [] || chunks[0] == [] then [] else [chunks[0]] + UpToEof(chunks[1..])
  }

  /** More bytes only add to what a prefix already decoded to; after corruption they add nothing. */
  lemma {:induction false} GreedyExtends(d: Decoder, p: Bytes, q: Bytes)
    requires PrefixStable(d)
    ensures var g, h := Greedy(d, p), Greedy(d, p + q);
            if g.status == CorruptStream then h.events == g.events && h.status == CorruptStream
            else h == Greedy(d, g.rest + q).(events := g.events + Greedy(d, g.rest + q).events)
    decreases |p|
  {
    if p == [] {
      assert p + q == q;
    } else {
      match d(p) {
        case NeedMore =>
        case Corrupt =>
          assert d(p + q) == d(p);
        case Frame(e, n) =>
          assert d(p + q) == d(p);
          assert (p + q)[n..] == p[n..] + q;
          GreedyExtends(d, p[n..], q);
      }
    }
  }

  /** What one greedy pass leaves cannot be decoded any further. */
  lemma {:induction false} LeftoverIsInert(d: Decoder, buf: Bytes)
    requires Progressive(d)
    ensures Greedy(d, buf).status != Eof
    ensures Greedy(d, buf).status == Ok ==> Greedy(d, Greedy(d, buf).rest) == Outcome([], Greedy(d, buf).rest, Ok)
    decreases |buf|
  {
    if buf != [] && d(buf).Frame? {
      LeftoverIsInert(d, buf[d(buf).length..]);
    }
  }

  /**
   * Reading in pieces is reading at once: from a buffer that holds no complete frame, the events of a
   * connection are those of one greedy pass over the buffer and everything read before the end of the
   * stream, and unless the stream was corrupt the leftover is the same too.
   */
  lemma {:induction false} SessionIsGreedy(d: Decoder, buf: Bytes, chunks: seq<Bytes>)
    requires PrefixStable(d) && Greedy(d, buf) == Outcome([], buf, Ok)
    ensures var s, g := Session(d, buf, chunks), Greedy(d, buf + Concat(UpToEof(chunks)));
            && s.events == g.events
            && (s.status == CorruptStream <==> g.status == CorruptStream)
            && (s.status != CorruptStream ==> s.rest == g.rest)
    decreases |chunks|
  {
    var all := Concat(UpToEof(chunks));
    if chunks == [] || chunks[0] == [] {
      assert buf + all == buf;
    } else {
      var later := Concat(UpToEof(chunks[1..]));
      var first := Greedy(d, buf + chunks[0]);
      assert all == chunks[0] + later by { ConcatFirst(chunks); }
      assert buf + all == (buf + chunks[0]) + later;
      GreedyExtends(d, buf + chunks[0], later);
      LeftoverIsInert(d, buf + chunks[0]);
      if first.status == Ok {
        SessionIsGreedy(d, first.rest, chunks[1..]);
      }
    }
  }

  lemma ConcatFirst(chunks: seq<Bytes>)
    requires chunks != [] && chunks[0] != []
    ensures Concat(UpToEof(chunks)) == chunks[0] + Concat(UpToEof(chunks[1..]))
  {
    assert UpToEof(chunks)[1..] == UpToEof(chunks[1..]);
  }

  /** Hence two cuts of the same bytes give the same events and the same leftover. */
  lemma CuttingDoesNotMatter(d: Decoder, one: seq<Bytes>, other: seq<Bytes>)
    requires PrefixStable(d) && Concat(UpToEof(one)) == Concat(UpToEof(other))
    ensures var s, t := Session(d, [], one), Session(d, [], other);
            && s.events == t.events
            && (s.status == CorruptStream <==> t.status == CorruptStream)
            && (s.status != CorruptStream ==> s.rest == t.rest)
  {
    SessionIsGreedy(d, [], one);
    SessionIsGreedy(d, [], other);
  }
}
