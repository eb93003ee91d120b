/**
 Scanning magnitude blocks for messages, and carrying the tail of each block
 into the next so that nothing falls between two reads.  Whether a message is
 accepted at a position is decided elsewhere and given here as an oracle.
 */
module Scan {
  const WINDOW: nat := 290
  const CARRY: nat := 320
  const TICKS: nat := 5

  /** An accepted message: the absolute positions it starts at and ends before. */
  datatype Found = Found(start: nat, end: nat)

  /** Samples from the start of the preamble to the end of a message of `bits` bits. */
  function Extent(bits: nat): nat
  {
    (bits + 8) * 12 / 5
  }

  lemma ExtentIsLong(bits: nat)
    requires bits >= 56
    ensures Extent(bits) >= 153
  {
  }

  /** An oracle accepts a short or a long message, or none. */
  ghost predicate Accepts(accept: nat -> nat)
  {
    forall j :: accept(j) == 0 || accept(j) == 56 || accept(j) == 112
  }

  ghost predicate Covered(found: seq<Found>, a: nat)
  {
    exists i :: 0 <= i < |found| && found[i].start <= a < found[i].end
  }

  /** A position was examined as a start, or lies in a message found. */
  ghost predicate Resolved(examined: set<nat>, found: seq<Found>, a: nat)
  {
    a in examined || Covered(found, a)
  }

  ghost predicate ResolvedBelow(examined: set<nat>, found: seq<Found>, n: nat)
  {
    forall a :: 0 <= a < n ==> Resolved(examined, found, a)
  }

  lemma Examining(examined: set<nat>, found: seq<Found>, n: nat)
    requires ResolvedBelow(examined, found, n)
    ensures ResolvedBelow(examined + {n}, found, n + 1)
  {
    forall a | 0 <= a < n + 1 ensures Resolved(examined + {n}, found, a) {
      assert a < n ==> Resolved(examined, found, a);
    }
  }

  lemma Finding(examined: set<nat>, found: seq<Found>, n: nat, end: nat)
    requires ResolvedBelow(examined, found, n) && n < end
    ensures ResolvedBelow(examined, found + [Found(n, end)], end)
  {
    var more := found + [Found(n, end)];
    forall a | 0 <= a < end ensures Resolved(examined, more, a) {
      if a < n {
        assert Resolved(examined, found, a);
        if a !in examined {
          var i :| 0 <= i < |found| && found[i].start <= a < found[i].end;
          assert more[i] == found[i];
        }
      } else {
        assert more[|found|] == Found(n, end);
      }
    }
  }

  function LastEnd(found: seq<Found>): nat
  {
    if found == [] then 0 else found[|found| - 1].end
  }

  /** Messages are found in order, none is found twice, and each ends after those before it. */
  ghost predicate Increasing(found: seq<Found>)
  {
    && (forall i :: 0 <= i < |found| ==> found[i].start < found[i].end)
    && (forall i :: 1 <= i < |found| ==> found[i - 1].start < found[i].start && found[i - 1].end < found[i].end)
  }

  lemma {:induction false} StartsIncrease(found: seq<Found>, i: nat, j: nat)
    requires Increasing(found) && i < j < |found|
    ensures found[i].start < found[j].start && found[i].end < found[j].end
    decreases j
  {
    if i < j - 1 {
      StartsIncrease(found, i, j - 1);
    }
  }

  /**
   The record of one block's scan: where the block starts, its oracle, the
   positions examined, and the range of messages found.
   */
  datatype Scanned = Scanned(start: nat, accept: nat -> nat, visited: set<nat>, first: nat, last: nat)
  {
    /** Message `i` is what the oracle accepted at its start, at its full extent. */
    ghost predicate Accepted(found: seq<Found>, i: nat)
      requires i < |found|
    {
      var f := found[i];
      && f.start in visited && f.start >= start
      && accept(f.start - start) != 0 && f.end == f.start + Extent(accept(f.start - start))
    }

    /** A message found in this scan starts at `a`. */
    ghost predicate Reported(found: seq<Found>, a: nat)
      requires last <= |found|
    {
      exists i :: first <= i < last && found[i].start == a
    }

    /** What was found is what was accepted, and every acceptance was found. */
    ghost predicate Faithful(found: seq<Found>)
    {
      && first <= last <= |found|
      && (forall i :: first <= i < last ==> Accepted(found, i))
      && (forall a :: a in visited ==> a >= start && (accept(a - start) != 0 ==> Reported(found, a)))
    }
  }

  /** Examining one more position keeps the account. */
  lemma Accounted(scan: Scanned, found: seq<Found>, more: seq<Found>, j: nat)
    requires scan.Faithful(found) && scan.last == |found|
    requires more == found + if scan.accept(j) == 0 then []
        else [Found(scan.start + j, scan.start + j + Extent(scan.accept(j)))]
    ensures scan.(visited := scan.visited + {scan.start + j}, last := |more|).Faithful(more)
  {
    var next := scan.(visited := scan.visited + {scan.start + j}, last := |more|);
    forall i | next.first <= i < next.last ensures next.Accepted(more, i) {
      assert i < |found| ==> scan.Accepted(found, i);
    }
    forall a | a in next.visited && next.accept(a - next.start) != 0 ensures next.Reported(more, a) {
      if a == scan.start + j {
        assert more[|found|].start == a;
      } else {
        assert scan.Reported(found, a);
        var i :| scan.first <= i < scan.last && found[i].start == a;
        assert more[i].start == a;
      }
    }
  }

  lemma StillFaithful(scan: Scanned, found: seq<Found>, more: seq<Found>)
    requires scan.Faithful(found) && found <= more
    ensures scan.Faithful(more)
  {
    forall i | scan.first <= i < scan.last ensures scan.Accepted(more, i) {
      assert scan.Accepted(found, i);
    }
    forall a | a in scan.visited && scan.accept(a - scan.start) != 0 ensures scan.Reported(more, a) {
      assert scan.Reported(found, a);
      var i :| scan.first <= i < scan.last && found[i].start == a;
      assert more[i].start == a;
    }
  }

  ghost predicate ExaminedIn(scans: seq<Scanned>, a: nat)
  {
    exists k :: 0 <= k < |scans| && a in scans[k].visited
  }

  ghost predicate FoundIn(scans: seq<Scanned>, i: nat)
  {
    exists k :: 0 <= k < |scans| && scans[k].first <= i < scans[k].last
  }

  /** Every position examined and every message found belongs to the scan of some block. */
  ghost predicate Recorded(scans: seq<Scanned>, examined: set<nat>, found: seq<Found>)
  {
    && (forall k :: 0 <= k < |scans| ==> scans[k].Faithful(found))
    && (forall a :: a in examined ==> ExaminedIn(scans, a))
    && (forall i :: 0 <= i < |found| ==> FoundIn(scans, i))
  }

  lemma RecordGrows(scans: seq<Scanned>, examined: set<nat>, found: seq<Found>, scan: Scanned, more: seq<Found>)
    requires Recorded(scans, examined, found) && found <= more
    requires scan.Faithful(more) && scan.first == |found| && scan.last == |more|
    ensures Recorded(scans + [scan], examined + scan.visited, more)
  {
    var longer := scans + [scan];
    forall k | 0 <= k < |longer| ensures longer[k].Faithful(more) {
      if k < |scans| {
        StillFaithful(scans[k], found, more);
      }
    }
    forall a | a in examined + scan.visited ensures ExaminedIn(longer, a) {
      if a in scan.visited {
        assert a in longer[|scans|].visited;
      } else {
        assert ExaminedIn(scans, a);
        var k :| 0 <= k < |scans| && a in scans[k].visited;
        assert longer[k] == scans[k];
      }
    }
    forall i | 0 <= i < |more| ensures FoundIn(longer, i) {
      if i < |found| {
        assert FoundIn(scans, i);
        var k :| 0 <= k < |scans| && scans[k].first <= i < scans[k].last;
        assert longer[k] == scans[k];
      } else {
        assert longer[|scans|] == scan;
      }
    }
  }

  /** Some block's oracle was asked about a position, and its acceptance, if any, was found. */
  ghost predicate Asked(scans: seq<Scanned>, found: seq<Found>, a: nat)
  {
    exists k :: 0 <= k < |scans| && a in scans[k].visited && scans[k].Faithful(found)
                && a >= scans[k].start && (scans[k].accept(a - scans[k].start) != 0 ==> scans[k].Reported(found, a))
  }

  /** A position lies in a message that some block's oracle accepted, at its full extent. */
  ghost predicate Spanned(scans: seq<Scanned>, found: seq<Found>, a: nat)
  {
    exists k, i :: 0 <= k < |scans| && 0 <= i < |found| && scans[k].Accepted(found, i)
        && found[i].start <= a < found[i].end
  }

  /** What is resolved is resolved by the oracles. */
  lemma ResolvedByOracles(scans: seq<Scanned>, examined: set<nat>, found: seq<Found>, a: nat)
    requires Recorded(scans, examined, found) && Resolved(examined, found, a)
    ensures Asked(scans, found, a) || Spanned(scans, found, a)
  {
    if a in examined {
      assert ExaminedIn(scans, a);
      var k :| 0 <= k < |scans| && a in scans[k].visited;
      assert scans[k].Faithful(found);
    } else {
      var i :| 0 <= i < |found| && found[i].start <= a < found[i].end;
      assert FoundIn(scans, i);
      var k :| 0 <= k < |scans| && scans[k].first <= i < scans[k].last;
      assert scans[k].Faithful(found) && scans[k].Accepted(found, i);
    }
  }

  class Demodulator {
    /** End of the last message found, in ticks. */
    var lastMessageEnd: nat
    ghost var found: seq<Found>
    ghost var examined: set<nat>
    ghost var scans: seq<Scanned>

    ghost predicate Valid()
      reads this
    {
      Sound() && Recorded(scans, examined, found)
    }

    ghost predicate Sound()
      reads this
    {
      && Increasing(found) && lastMessageEnd == TICKS * LastEnd(found)
      && ResolvedBelow(examined, found, LastEnd(found))
      && (forall i :: 0 <= i < |found| ==> found[i].start in examined)
    }

    constructor ()
      ensures Valid() && found == [] && examined == {} && scans == []
    {
      lastMessageEnd, found, examined, scans := 0, [], {}, [];
    }

    /**
     Scan a block whose first sample has absolute position `start`.  Everything
     before the carried part, and a window from the end, is resolved.
     */
    method Demodulate(length: nat, overlap: nat, timestamp: nat, ghost start: nat, accept: nat -> nat)
      returns (ghost visited: set<nat>)
      requires Valid() && timestamp == TICKS * start && Accepts(accept)
      requires ResolvedBelow(examined, found, start)
      modifies this
      ensures Valid() && old(found) <= found
      ensures scans == old(scans) + [Scanned(start, accept, visited, |old(found)|, |found|)]
      ensures examined == old(examined) + visited
      ensures forall a :: a in examined ==> a in old(examined) || (start <= a && a + WINDOW <= start + length)
      ensures forall n: nat ::
        n + overlap <= start + length && n + WINDOW <= start + length + 1 ==> ResolvedBelow(examined, found, n)
    {
      ghost var scan := ScanBlock(length, overlap, timestamp, start, accept);
      RecordGrows(scans, old(examined), old(found), scan, found);
      scans := scans + [scan];
      visited := scan.visited;
    }

    /** The scan itself, with the account of it. */
    method ScanBlock(length: nat, overlap: nat, timestamp: nat, ghost start: nat, accept: nat -> nat)
      returns (ghost scan: Scanned)
      requires Sound() && timestamp == TICKS * start && Accepts(accept) && ResolvedBelow(examined, found, start)
      modifies this`lastMessageEnd, this`found, this`examined
      ensures Sound() && old(found) <= found && examined == old(examined) + scan.visited
      ensures scan.Faithful(found) && scan == Scanned(start, accept, scan.visited, |old(found)|, |found|)
      ensures forall a :: a in scan.visited ==> start <= a && a + WINDOW <= start + length
      ensures forall n: nat ::
        n + overlap <= start + length && n + WINDOW <= start + length + 1 ==> ResolvedBelow(examined, found, n)
    {
      var scanned := if length >= overlap then length - overlap else 0;
      var decodedEnd := DecodedEnd(timestamp, start);
      var j: nat := if decodedEnd < length then decodedEnd else length;
      scan := Scanned(start, accept, {}, |found|, |found|);
      while j < scanned && length - j >= WINDOW
        invariant Sound() && old(found) <= found
        invariant scan.Faithful(found) && examined == old(examined) + scan.visited
        invariant scan == Scanned(start, accept, scan.visited, |old(found)|, |found|)
        invariant forall a :: a in scan.visited ==> start <= a && a + WINDOW <= start + length
        invariant ResolvedBelow(examined, found, start + j)
        invariant j < length ==> Ahead(start + j)
        decreases length - j
      {
        j, scan := Visit(j, timestamp, scan, accept);
      }
    }

    /** Put one position to the oracle, and account for the answer. */
    method Visit(j: nat, timestamp: nat, ghost scan: Scanned, accept: nat -> nat)
      returns (next: nat, ghost after: Scanned)
      requires Sound() && timestamp == TICKS * scan.start && Accepts(accept) && accept == scan.accept
      requires ResolvedBelow(examined, found, scan.start + j) && Ahead(scan.start + j)
      requires scan.Faithful(found) && scan.last == |found|
      modifies this`lastMessageEnd, this`found, this`examined
      ensures Sound() && next > j && ResolvedBelow(examined, found, scan.start + next) && Ahead(scan.start + next)
      ensures old(found) <= found && examined == old(examined) + {scan.start + j}
      ensures after.Faithful(found) && after == scan.(visited := scan.visited + {scan.start + j}, last := |found|)
    {
      ghost var was := found;
      next := Try(j, timestamp, scan.start, accept(j));
      Accounted(scan, was, found, j);
      after := scan.(visited := scan.visited + {scan.start + j}, last := |found|);
    }

    /** A new message found from here on follows those found before. */
    ghost predicate Ahead(position: nat)
      reads this
    {
      found != [] ==> found[|found| - 1].start < position && LastEnd(found) <= position + 18
    }

    /** Examine one position, and move past the message if there is one. */
    method Try(j: nat, timestamp: nat, ghost start: nat, bits: nat) returns (next: nat)
      requires Sound() && timestamp == TICKS * start && ResolvedBelow(examined, found, start + j) && Ahead(start + j)
      requires bits == 0 || bits == 56 || bits == 112
      modifies this`lastMessageEnd, this`found, this`examined
      ensures Sound() && next > j && ResolvedBelow(examined, found, start + next) && Ahead(start + next)
      ensures examined == old(examined) + {start + j}
      ensures found == old(found) + if bits == 0 then [] else [Found(start + j, start + j + Extent(bits))]
      ensures next == if bits == 0 then j + 1 else j + Extent(bits) - 18
    {
      if bits == 0 {
        Miss(start + j);
        next := j + 1;
      } else {
        ExtentIsLong(bits);
        next := Report(j, timestamp, start, j + Extent(bits));
      }
    }

    /** Record a message and skip to a margin before its end. */
    method Report(j: nat, timestamp: nat, ghost start: nat, messageEnd: nat) returns (next: nat)
      requires Sound() && timestamp == TICKS * start && ResolvedBelow(examined, found, start + j) && Ahead(start + j)
      requires j + 153 <= messageEnd
      modifies this`lastMessageEnd, this`found, this`examined
      ensures Sound() && ResolvedBelow(examined, found, start + next) && Ahead(start + next)
      ensures examined == old(examined) + {start + j} && found == old(found) + [Found(start + j, start + messageEnd)]
      ensures next == messageEnd - 18
    {
      Hit(start + j, start + messageEnd);
      lastMessageEnd := timestamp + messageEnd * TICKS;
      next := messageEnd - 8 * 12 / 5 + 1;
    }

    ghost method Miss(position: nat)
      requires Sound() && ResolvedBelow(examined, found, position)
      modifies this`examined
      ensures Sound() && examined == old(examined) + {position} && ResolvedBelow(examined, found, position + 1)
    {
      Examining(examined, found, position);
      MoreExamined(examined, found, LastEnd(found), position);
      examined := examined + {position};
    }

    /** Record a message; the clock of its end is still to be set. */
    ghost method Hit(position: nat, end: nat)
      requires Sound() && ResolvedBelow(examined, found, position) && Ahead(position) && position + 18 < end
      modifies this`examined, this`found
      ensures examined == old(examined) + {position} && found == old(found) + [Found(position, end)]
      ensures Increasing(found) && ResolvedBelow(examined, found, end)
      ensures forall i :: 0 <= i < |found| ==> found[i].start in examined
    {
      Finding(examined, found, position, end);
      found := found + [Found(position, end)];
      MoreExamined(examined, found, end, position);
      examined := examined + {position};
    }

    /** Where in the block the last message found ends. */
    method DecodedEnd(timestamp: nat, ghost start: nat) returns (n: nat)
      requires Sound() && timestamp == TICKS * start
      ensures n == if LastEnd(found) > start then LastEnd(found) - start else 0
    {
      n := ((if lastMessageEnd > timestamp then lastMessageEnd - timestamp else 0) + 4) / 5;
    }
  }

  lemma MoreExamined(examined: set<nat>, found: seq<Found>, n: nat, a: nat)
    requires ResolvedBelow(examined, found, n)
    ensures ResolvedBelow(examined + {a}, found, n)
  {
    forall b | 0 <= b < n ensures Resolved(examined + {a}, found, b) {
      assert Resolved(examined, found, b);
    }
  }

  // ---------------------------------------------------------------------
  // Blocks with the tail of the one before
  // ---------------------------------------------------------------------

  class Reader {
    const demodulator: Demodulator
    var carry: seq<nat>
    var nextSample: nat
    /** Every sample read. */
    ghost var stream: seq<nat>

    ghost predicate Valid()
      reads this, demodulator
    {
      && demodulator.Valid() && nextSample == |stream|
      && |carry| == (if |stream| < CARRY then |stream| else CARRY) && carry == stream[|stream| - |carry|..]
      && ResolvedBelow(demodulator.examined, demodulator.found, |stream| - |carry|)
      && (forall a :: a in demodulator.examined ==> a + WINDOW <= |stream|)
    }

    constructor ()
      ensures Valid() && fresh(demodulator) && stream == []
    {
      demodulator := new Demodulator();
      carry, nextSample, stream := [], 0, [];
    }

    /** Take one read of any size: its block is scanned with its own oracle. */
    method Take(samples: seq<nat>, accept: nat -> nat) returns (ghost visited: set<nat>)
      requires Valid() && Accepts(accept)
      modifies this, demodulator
      ensures Valid() && stream == old(stream) + samples && old(demodulator.found) <= demodulator.found
      ensures demodulator.examined == old(demodulator.examined) + visited
      ensures demodulator.scans == old(demodulator.scans)
        + [Scanned(BlockStart(|old(stream)|), accept, visited, |old(demodulator.found)|, |demodulator.found|)]
    {
      var block := carry + samples;
      var overlap := |carry|;
      var blockStart := if nextSample >= overlap then nextSample - overlap else 0;
      nextSample := nextSample + |samples|;
      stream := stream + samples;
      assert block == stream[blockStart..];
      visited := demodulator.Demodulate(|block|, overlap, blockStart * TICKS, blockStart, accept);
      var tail := if |block| >= CARRY then |block| - CARRY else 0;
      carry := block[tail..];
    }

    /**
     Whatever the sizes of the reads, every position more than the carry behind
     was put to the oracle of some block, which found a message there if it
     accepted one, or lies in a message that some block's oracle accepted.
     */
    method Run(blocks: seq<seq<nat>>, accepts: seq<nat -> nat>)
      requires Valid() && |accepts| == |blocks| && forall i :: 0 <= i < |accepts| ==> Accepts(accepts[i])
      modifies this, demodulator
      ensures Valid() && Increasing(demodulator.found)
      ensures |stream| == |old(stream)| + TotalLength(blocks)
      ensures ScansOf(demodulator.scans, |old(demodulator.scans)|, |old(stream)|, blocks, accepts, |blocks|)
      ensures forall a: nat :: a + CARRY < |stream| ==>
        Asked(demodulator.scans, demodulator.found, a) || Spanned(demodulator.scans, demodulator.found, a)
    {
      ghost var n, from := |demodulator.scans|, |stream|;
      for i := 0 to |blocks|
        invariant Valid() && |stream| == from + TotalLength(blocks[..i])
        invariant ScansOf(demodulator.scans, n, from, blocks, accepts, i)
      {
        ghost var was := demodulator.scans;
        ghost var visited := Take(blocks[i], accepts[i]);
        ScansGrow(was, demodulator.scans, n, from, blocks, accepts, i);
      }
      assert blocks[..|blocks|] == blocks;
      EveryPositionAnswered();
    }

    lemma EveryPositionAnswered()
      requires Valid()
      ensures forall a: nat :: a + CARRY < |stream| ==>
        Asked(demodulator.scans, demodulator.found, a) || Spanned(demodulator.scans, demodulator.found, a)
    {
      forall a: nat | a + CARRY < |stream|
        ensures Asked(demodulator.scans, demodulator.found, a) || Spanned(demodulator.scans, demodulator.found, a)
      {
        ResolvedByOracles(demodulator.scans, demodulator.examined, demodulator.found, a);
      }
    }
  }

  /** The scan of a block read after `n` samples, by its own oracle. */
  ghost predicate ScanOf(scan: Scanned, n: nat, accept: nat -> nat)
  {
    scan.start == BlockStart(n) && scan.accept == accept
  }

  /** The first `m` blocks read after `from` samples have been scanned in order, each by its own oracle. */
  ghost predicate ScansOf(
      scans: seq<Scanned>, n: nat, from: nat, blocks: seq<seq<nat>>, accepts: seq<nat -> nat>, m: nat)
    requires m <= |blocks| == |accepts|
  {
    |scans| == n + m && forall i :: 0 <= i < m ==> ScanOf(scans[n + i], from + TotalLength(blocks[..i]), accepts[i])
  }

  lemma ScansGrow(
      scans: seq<Scanned>, more: seq<Scanned>, n: nat, from: nat, blocks: seq<seq<nat>>, accepts: seq<nat -> nat>,
      m: nat)
    requires m < |blocks| == |accepts| && ScansOf(scans, n, from, blocks, accepts, m)
    requires |more| == |scans| + 1 && scans <= more
    requires ScanOf(more[|scans|], from + TotalLength(blocks[..m]), accepts[m])
    ensures ScansOf(more, n, from, blocks, accepts, m + 1)
    ensures TotalLength(blocks[..m + 1]) == TotalLength(blocks[..m]) + |blocks[m]|
  {
    assert blocks[..m + 1][..m] == blocks[..m];
  }

  /** The absolute position of a block that follows `n` samples: it begins with the carried tail. */
  function BlockStart(n: nat): nat { if n < CARRY then 0 else n - CARRY }

  function TotalLength(blocks: seq<seq<nat>>): nat
  {
    if blocks == [] then 0 else TotalLength(blocks[..|blocks| - 1]) + |blocks[|blocks| - 1]|
  }
}
