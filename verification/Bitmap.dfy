/** crates/utils/src/shared_memory/bitmap.rs: an array of words read as one row of bits. */
module Bitmaps {
  import opened Wrappers
  import opened Words

  /** The least clear position in `[from, limit)`, one bit at a time. */
  function FirstZero(bits: seq<bool>, from: nat, limit: nat): Option<nat>
    requires limit <= |bits|
    decreases limit - from
  {
    if from >= limit then None
    else if !bits[from] then Some(from)
    else FirstZero(bits, from + 1, limit)
  }

  /** `found` is the least clear position of `[from, limit)`, or None and there is none. */
  predicate IsFirstZero(bits: seq<bool>, from: nat, limit: nat, found: Option<nat>)
    requires limit <= |bits|
  {
    match found
    case None => AllSet(bits, from, limit)
    case Some(z) => from <= z < limit && !bits[z] && AllSet(bits, from, z)
  }

  predicate AllSet(bits: seq<bool>, from: nat, limit: nat)
    requires limit <= |bits|
  {
    forall p :: from <= p < limit ==> bits[p]
  }

  /** The bit-by-bit search finds the least clear position, and nothing else is that position. */
  lemma {:induction false} FirstZeroIsLeast(bits: seq<bool>, from: nat, limit: nat, found: Option<nat>)
    requires limit <= |bits|
    ensures found == FirstZero(bits, from, limit) <==> IsFirstZero(bits, from, limit, found)
    decreases limit - from
  {
    if from < limit && bits[from] {
      FirstZeroIsLeast(bits, from + 1, limit, found);
    }
  }

  /** Searching a word whose bits before `col` are covered by ones finds the first clear bit from `col` on. */
  lemma SearchWord(bits: seq<bool>, start: nat, col: nat, num: Word)
    requires col < BITS && start + BITS <= |bits|
    requires forall c :: 0 <= c < BITS ==> num[c] == (c < col || bits[start..start + BITS][c])
    ensures num == Max() ==> AllSet(bits, start + col, start + BITS)
    ensures num != Max() ==> LeadingOnes(num) < BITS
    ensures num != Max() ==> IsFirstZero(bits, start + col, |bits|, Some(start + LeadingOnes(num)))
    ensures num == Zero() ==> LeadingOnes(num) == 0
  {
    if LeadingOnes(num) == BITS {
      assert num == Max();
    }
    forall p | start + col <= p < start + BITS
      ensures bits[p] == num[p - start]
    {
      assert bits[start..start + BITS][p - start] == bits[p];
    }
  }

  lemma SkipPrefix(bits: seq<bool>, from: nat, mid: nat, found: Option<nat>)
    requires from <= mid && (mid <= |bits| ==> AllSet(bits, from, mid)) && (|bits| < mid ==> |bits| <= from)
    requires IsFirstZero(bits, mid, |bits|, found)
    ensures IsFirstZero(bits, from, |bits|, found)
  {
  }

  lemma CutAtEnd(bits: seq<bool>, from: nat, limit: nat, all: Option<nat>, cut: Option<nat>)
    requires limit <= |bits| && IsFirstZero(bits, from, |bits|, all)
    requires cut == if all.Some? && all.value >= limit then None else all
    ensures cut == FirstZero(bits, from, limit)
  {
    FirstZeroIsLeast(bits, from, limit, cut);
  }

  /** The row of bits that an array of words stores: position `p` is bit `p % 64` of word `p / 64`. */
  function Flatten(words: seq<Word>): (bits: seq<bool>)
    ensures |bits| == BITS * |words|
  {
    if words == [] then [] else Flatten(words[..|words| - 1]) + words[|words| - 1]
  }

  lemma {:induction false} WordOf(words: seq<Word>, row: nat)
    requires row < |words|
    ensures BITS * row + BITS <= |Flatten(words)|
    ensures Flatten(words)[BITS * row..BITS * row + BITS] == words[row]
  {
    var last := |words| - 1;
    if row < last {
      WordOf(words[..last], row);
      assert Flatten(words)[BITS * row..BITS * row + BITS] == Flatten(words[..last])[BITS * row..BITS * row + BITS];
    }
  }

  lemma SearchRow(words: seq<Word>, row: nat, col: nat, num: Word)
    requires row < |words| && col < BITS
    requires forall c :: 0 <= c < BITS ==> num[c] == (c < col || words[row][c])
    ensures BITS * row + BITS <= |Flatten(words)|
    ensures num == Max() ==> AllSet(Flatten(words), BITS * row + col, BITS * row + BITS)
    ensures num != Max() ==> LeadingOnes(num) < BITS
    ensures num != Max() ==>
              IsFirstZero(Flatten(words), BITS * row + col, |Flatten(words)|, Some(BITS * row + LeadingOnes(num)))
    ensures num == Zero() ==> LeadingOnes(num) == 0
  {
    WordOf(words, row);
    SearchWord(Flatten(words), BITS * row, col, num);
  }

  lemma {:induction false} BitOf(words: seq<Word>, row: nat, col: nat)
    requires row < |words| && col < BITS
    ensures BITS * row + col < |Flatten(words)|
    ensures Flatten(words)[BITS * row + col] == words[row][col]
  {
    WordOf(words, row);
    assert Flatten(words)[BITS * row..BITS * row + BITS][col] == words[row][col];
  }

  /** Writing one bit of one word writes one position of the row. */
  lemma {:induction false} WriteBit(words: seq<Word>, row: nat, col: nat, val: bool)
    requires row < |words| && col < BITS
    ensures BITS * row + col < |Flatten(words)|
    ensures Flatten(words[row := words[row][col := val]]) == Flatten(words)[BITS * row + col := val]
  {
    var last := |words| - 1;
    var written := words[row := words[row][col := val]];
    if row < last {
      WriteBit(words[..last], row, col, val);
      assert written[..last] == words[..last][row := words[row][col := val]];
    } else {
      assert written[..last] == words[..last];
    }
  }

  lemma {:induction false} AllClear(words: seq<Word>)
    requires forall i :: 0 <= i < |words| ==> words[i] == Zero()
    ensures forall p :: 0 <= p < |Flatten(words)| ==> !Flatten(words)[p]
  {
    if words != [] {
      AllClear(words[..|words| - 1]);
    }
  }

  class Bitmap {
    const words: array<Word>

    constructor (n: nat)
      ensures fresh(words) && words.Length == n
      ensures forall p :: 0 <= p < |Bits()| ==> !Bits()[p]
    {
      words := new Word[n](_ => Zero());
      new;
      AllClear(words[..]);
    }

    function Bits(): (bits: seq<bool>)
      reads words
      ensures |bits| == BITS * words.Length
    {
      Flatten(words[..])
    }

    predicate Test(offset: nat): (on: bool)
      requires offset < BITS * words.Length
      reads words
      ensures on == Bits()[offset]
    {
      BitMaskBits(offset);
      BitOf(words[..], offset / BITS, offset % BITS);
      var mask := BitMask(offset);
      var row := words[offset / BITS];
      assert And(row, mask)[offset % BITS] == row[offset % BITS];
      And(row, mask) == mask
    }

    method TestAndSet(offset: nat, val: bool) returns (was: bool)
      requires offset < BITS * words.Length
      modifies words
      ensures was == old(Bits()[offset])
      ensures Bits() == old(Bits())[offset := val]
    {
      BitMaskBits(offset);
      var mask := BitMask(offset);
      var idx := offset / BITS;
      var row := words[idx];
      was := Test(offset);
      words[idx] := if val then Or(row, mask) else And(row, Not(mask));
      WriteBit(old(words[..]), idx, offset % BITS, val);
      assert words[idx] == row[offset % BITS := val];
      assert words[..] == old(words[..])[idx := row[offset % BITS := val]];
    }

    /** The loop of `find_next_zero`: the first clear position from word `start` on, skipping full words. */
    method ScanWords(start: nat) returns (nextZero: Option<nat>)
      ensures IsFirstZero(Bits(), BITS * start, |Bits()|, nextZero)
    {
      ghost var rows, bits := words[..], Bits();
      var i := start;
      while i < words.Length
        invariant start <= i
        invariant i <= words.Length ==> AllSet(bits, BITS * start, BITS * i)
        invariant words.Length < i ==> i == start
      {
        var num := words[i];
        SearchRow(rows, i, 0, num);
        if num == Zero() {
          SkipPrefix(bits, BITS * start, BITS * i, Some(i * BITS));
          return Some(i * BITS);
        } else if num == Max() {
          i := i + 1;
        } else {
          SkipPrefix(bits, BITS * start, BITS * i, Some(i * BITS + LeadingOnes(num)));
          return Some(i * BITS + LeadingOnes(num));
        }
      }
      return None;
    }

    /** The first step of `find_next_zero`, for an offset in the middle of a word. */
    method ScanPartialWord(offset: nat) returns (nextZero: Option<nat>)
      requires offset % BITS != 0 && offset < BITS * words.Length
      ensures BITS * (offset / BITS + 1) <= |Bits()|
      ensures nextZero.None? ==> AllSet(Bits(), offset, BITS * (offset / BITS + 1))
      ensures nextZero.Some? ==> IsFirstZero(Bits(), offset, |Bits()|, nextZero)
    {
      var row, col := offset / BITS, offset % BITS;
      LeadingMaskBits(col);
      var num := Or(words[row], LeadingMask(col));
      SearchRow(words[..], row, col, num);
      assert BITS * row + col == offset;
      return if num != Max() then Some(row * BITS + LeadingOnes(num)) else None;
    }

    /** Returns what the bit-by-bit search returns on `[offset, min(end, 64 * N))`. The source indexes the word
        of an offset that is not a multiple of 64, and panics when there is no such word. */
    method FindNextZero(offset: nat, end: Option<nat>) returns (found: Option<nat>)
      requires offset % BITS != 0 ==> offset < BITS * words.Length
      ensures found == FirstZero(Bits(), offset, Limit(end))
    {
      var nextZero: Option<nat> := None;
      if offset % BITS != 0 {
        nextZero := ScanPartialWord(offset);
      }
      if nextZero.None? {
        var i := (offset + BITS - 1) / BITS;
        assert BITS * i == if offset % BITS == 0 then offset else BITS * (offset / BITS + 1);
        nextZero := ScanWords(i);
        SkipPrefix(Bits(), offset, BITS * i, nextZero);
      }
      match nextZero {
        case None => found := None;
        case Some(nz) => found := if end.Some? && nz >= end.value then None else Some(nz);
      }
      CutAtEnd(Bits(), offset, Limit(end), nextZero, found);
    }

    function Limit(end: Option<nat>): (limit: nat)
      ensures limit <= BITS * words.Length
    {
      if end.Some? && end.value < BITS * words.Length then end.value else BITS * words.Length
    }
  }
}
