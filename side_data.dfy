/**
 * The two side-data payloads a precompiled page ships beside its class:
 * `<SimpleName>_html.data` (a big-endian `int` count N, then N `writeUTF`
 * entries) and `<SimpleName>_linenumbers.data` (a count N, then N `int`s).
 *
 * `LoadHtmlData` and `LoadLineNumbers` say what the readers of
 * GroovyPageMetaInfo leave behind for a given resource: the array is
 * allocated as soon as the count is read, so a truncated payload leaves an
 * array of the full length whose first slots are filled and whose other
 * slots keep Java's default. The matching encoders are what a `DataOutput`
 * writer produces; the round-trip lemmas relate the two in both directions.
 */
module SideData {
  import opened JavaTypes
  import opened BigEndian

  const HTML_DATA_POSTFIX: string := "_html.data"
  const LINENUMBERS_DATA_POSTFIX: string := "_linenumbers.data"

  /** What a reader throws. */
  datatype ReadFailure =
    | EndOfStream        // EOFException, an IOException: the payload is shorter than it declares
    | NegativeArraySize  // NegativeArraySizeException from `new T[count]` with a negative count
    | NullPointer        // NullPointerException: no resource stream (or no page class) to read from

  /** The state a reader leaves behind. */
  datatype ArrayLoad<T> =
    | NotAllocated(failure: ReadFailure)   // thrown before the array was allocated
    | Allocated(length: nat, items: seq<T>) // an array of `length` slots, the first |items| of them read
  {
    /** Every slot was read: the reader returned normally. */
    predicate Complete() {
      Allocated? && |items| == length
    }
  }

  // ----- the resource name -----

  /** `String.lastIndexOf(char)`: the last index holding `c`, or -1. */
  function LastIndexOf(s: string, c: char): (r: int)
    ensures -1 <= r < |s|
    ensures r >= 0 ==> s[r] == c
    ensures forall j :: r < j < |s| ==> s[j] != c
  {
    if |s| == 0 then -1
    else if s[|s| - 1] == c then |s| - 1
    else LastIndexOf(s[..|s| - 1], c)
  }

  /** `stem` is what follows the last '.' of `className` (all of it when there is no '.'). */
  ghost predicate IsSimpleName(className: string, stem: string) {
    |stem| <= |className| &&
    className[|className| - |stem|..] == stem &&
    (forall j :: 0 <= j < |stem| ==> stem[j] != '.') &&
    (|stem| < |className| ==> className[|className| - |stem| - 1] == '.')
  }

  /** Only one stem fits: the description above determines the name. */
  lemma SimpleNameUnique(className: string, stem1: string, stem2: string)
    requires IsSimpleName(className, stem1) && IsSimpleName(className, stem2)
    ensures stem1 == stem2
  {
  }

  /**
   * `resolveDataResourceName`: the class name with everything up to its last
   * '.' removed, followed by `postfix`.
   */
  function ResolveDataResourceName(className: string, postfix: string): (r: string)
    ensures |r| >= |postfix| && r[|r| - |postfix|..] == postfix
    ensures IsSimpleName(className, r[..|r| - |postfix|])
  {
    var pos := LastIndexOf(className, '.');
    var stem := if pos > -1 then className[pos + 1..] else className;
    assert stem == (stem + postfix)[..|stem|];
    stem + postfix
  }

  /** The last `c` of `s` is at `k` (-1: there is none). */
  lemma LastIndexOfIs(s: string, c: char, k: int)
    requires -1 <= k < |s| && (k >= 0 ==> s[k] == c)
    requires forall j :: k < j < |s| ==> s[j] != c
    ensures LastIndexOf(s, c) == k
  {
  }

  /** `a.b.Page` and `Page` both name `Page...`; a class name ending in '.' leaves only the postfix. */
  lemma ResourceNameExamples(postfix: string)
    ensures ResolveDataResourceName("a.b.Page", postfix) == "Page" + postfix
    ensures ResolveDataResourceName("Page", postfix) == "Page" + postfix
    ensures ResolveDataResourceName("Page.", postfix) == postfix
  {
    LastIndexOfIs("a.b.Page", '.', 3);
    assert "a.b.Page"[4..] == "Page";
    LastIndexOfIs("Page", '.', -1);
    LastIndexOfIs("Page.", '.', 4);
    assert "Page."[5..] == "";
  }

  /** The two side-data resources of one class have different names. */
  lemma DataResourceNamesDiffer(className: string)
    ensures ResolveDataResourceName(className, HTML_DATA_POSTFIX) != ResolveDataResourceName(className, LINENUMBERS_DATA_POSTFIX)
  {
    var html := ResolveDataResourceName(className, HTML_DATA_POSTFIX);
    var lines := ResolveDataResourceName(className, LINENUMBERS_DATA_POSTFIX);
    assert html[|html| - 6] == html[|html| - |HTML_DATA_POSTFIX|..][4] == 'l';
    assert lines[|lines| - 6] == lines[|lines| - |LINENUMBERS_DATA_POSTFIX|..][11] == 's';
  }

  // ----- the line-number payload -----

  /** The `int`s a loop of `k` `readInt` calls from `pos` obtains before the stream runs out. */
  function ReadInts(data: seq<byte>, pos: nat, k: nat): (r: seq<int32>)
    requires pos <= |data|
    ensures |r| <= k
    ensures |r| == k <==> pos + 4 * k <= |data|
    decreases k
  {
    if k == 0 || pos + 4 > |data| then []
    else [Int32At(data, pos)] + ReadInts(data, pos + 4, k - 1)
  }

  /** One more `readInt` that fits extends what has been read by the `int` at `pos`. */
  lemma ReadIntsAdvance(data: seq<byte>, start: nat, pos: nat, k: nat, read: seq<int32>)
    requires pos <= |data| && start <= |data| && k > 0 && pos + 4 <= |data|
    requires read + ReadInts(data, pos, k) == ReadInts(data, start, k + |read|)
    ensures (read + [Int32At(data, pos)]) + ReadInts(data, pos + 4, k - 1) == ReadInts(data, start, k + |read|)
  {
    assert ReadInts(data, pos, k) == [Int32At(data, pos)] + ReadInts(data, pos + 4, k - 1);
    assert (read + [Int32At(data, pos)]) + ReadInts(data, pos + 4, k - 1) == read + ReadInts(data, pos, k);
  }

  /** The `j`-th `int` read is the one stored at `pos + 4 * j`. */
  lemma {:induction false} ReadIntsAt(data: seq<byte>, pos: nat, k: nat, j: nat)
    requires pos <= |data| && j < |ReadInts(data, pos, k)|
    ensures pos + 4 * j + 4 <= |data| && ReadInts(data, pos, k)[j] == Int32At(data, pos + 4 * j)
    decreases k
  {
    if j > 0 {
      ReadIntsAt(data, pos + 4, k - 1, j - 1);
      assert pos + 4 + 4 * (j - 1) == pos + 4 * j;
    }
  }

  /** `readLineNumbers` on the bytes of its resource. */
  function LoadLineNumbers(data: seq<byte>): (r: ArrayLoad<int32>)
    ensures r.NotAllocated? <==> |data| < 4 || Int32At(data, 0) < 0
    ensures r.NotAllocated? ==> r.failure == (if |data| < 4 then EndOfStream else NegativeArraySize)
    ensures r.Allocated? ==> r.length == Int32At(data, 0) && |r.items| <= r.length
    ensures r.Allocated? ==> (r.Complete() <==> 4 + 4 * r.length <= |data|)
    ensures r.Allocated? ==> forall j :: 0 <= j < |r.items| ==> 4 + 4 * j + 4 <= |data| && r.items[j] == Int32At(data, 4 + 4 * j)
  {
    if |data| < 4 then NotAllocated(EndOfStream)
    else
      var n := Int32At(data, 0);
      if n < 0 then NotAllocated(NegativeArraySize)
      else
        var items := ReadInts(data, 4, n);
        assert forall j :: 0 <= j < |items| ==> 4 + 4 * j + 4 <= |data| && items[j] == Int32At(data, 4 + 4 * j) by {
          forall j | 0 <= j < |items| ensures 4 + 4 * j + 4 <= |data| && items[j] == Int32At(data, 4 + 4 * j) {
            ReadIntsAt(data, 4, n, j);
          }
        }
        Allocated(n, items)
  }

  function IntsBytes(xs: seq<int32>): (r: seq<byte>)
    ensures |r| == 4 * |xs|
  {
    if xs == [] then [] else Int32Bytes(xs[0]) + IntsBytes(xs[1..])
  }

  /** What `writeInt(xs.length)` followed by `writeInt` of each element emits. */
  function EncodeLineNumbers(xs: seq<int32>): (r: seq<byte>)
    requires |xs| <= MAX_INT
    ensures |r| == 4 + 4 * |xs|
  {
    Int32Bytes(|xs|) + IntsBytes(xs)
  }

  /** `data[a..c]` split at `b`. */
  lemma SliceSplit(data: seq<byte>, a: nat, b: nat, c: nat, x: seq<byte>, y: seq<byte>)
    requires a <= b <= c <= |data| && |x| == b - a && data[a..c] == x + y
    ensures data[a..b] == x && data[b..c] == y
  {
    assert data[a..b] == data[a..c][..b - a];
    assert data[b..c] == data[a..c][b - a..];
  }

  lemma {:induction false} ReadIntsOfEncoded(xs: seq<int32>, data: seq<byte>, pos: nat)
    requires pos + 4 * |xs| <= |data| && data[pos..pos + 4 * |xs|] == IntsBytes(xs)
    ensures ReadInts(data, pos, |xs|) == xs
    decreases |xs|
  {
    if xs != [] {
      SliceSplit(data, pos, pos + 4, pos + 4 * |xs|, Int32Bytes(xs[0]), IntsBytes(xs[1..]));
      Int32RoundTrip(xs[0], data, pos);
      ReadIntsOfEncoded(xs[1..], data, pos + 4);
    }
  }

  /**
   * Reading more `int`s than a payload cut short holds gives back the ones
   * that are there: the loop stops at the first `readInt` that runs out.
   */
  lemma {:induction false} ReadIntsOfTruncated(xs: seq<int32>, data: seq<byte>, pos: nat, k: nat)
    requires |xs| <= k && pos + 4 * |xs| <= |data| < pos + 4 * |xs| + 4
    requires data[pos..pos + 4 * |xs|] == IntsBytes(xs)
    ensures ReadInts(data, pos, k) == xs
    decreases |xs|
  {
    if xs != [] {
      SliceSplit(data, pos, pos + 4, pos + 4 * |xs|, Int32Bytes(xs[0]), IntsBytes(xs[1..]));
      Int32RoundTrip(xs[0], data, pos);
      ReadIntsOfTruncated(xs[1..], data, pos + 4, k - 1);
    }
  }

  lemma {:induction false} EncodedOfReadInts(data: seq<byte>, pos: nat, k: nat)
    requires pos + 4 * k <= |data|
    ensures IntsBytes(ReadInts(data, pos, k)) == data[pos..pos + 4 * k]
    decreases k
  {
    if k > 0 {
      var rest := ReadInts(data, pos + 4, k - 1);
      var r := ReadInts(data, pos, k);
      assert r == [Int32At(data, pos)] + rest;
      assert r[0] == Int32At(data, pos) && r[1..] == rest;
      calc {
        IntsBytes(r);
        Int32Bytes(r[0]) + IntsBytes(r[1..]);
        { Int32BytesOfRead(data, pos); EncodedOfReadInts(data, pos + 4, k - 1); }
        data[pos..pos + 4] + data[pos + 4..pos + 4 * k];
        data[pos..pos + 4 * k];
      }
    }
  }

  /** Reading an encoded line-number table gives back the table, whatever follows it. */
  lemma LineNumbersRoundTrip(xs: seq<int32>, rest: seq<byte>)
    requires |xs| <= MAX_INT
    ensures LoadLineNumbers(EncodeLineNumbers(xs) + rest) == Allocated(|xs|, xs)
  {
    var data := EncodeLineNumbers(xs) + rest;
    SliceSplit(data, 0, 4, 4 + 4 * |xs|, Int32Bytes(|xs|), IntsBytes(xs));
    Int32RoundTrip(|xs|, data, 0);
    ReadIntsOfEncoded(xs, data, 4);
  }

  /** A complete read consumed exactly `4 + 4 * N` bytes, and they are the encoding of what was read. */
  lemma LineNumbersReencode(data: seq<byte>)
    requires LoadLineNumbers(data).Complete()
    ensures var r := LoadLineNumbers(data);
      4 + 4 * r.length <= |data| && data[..4 + 4 * r.length] == EncodeLineNumbers(r.items)
  {
    var r := LoadLineNumbers(data);
    Int32BytesOfRead(data, 0);
    EncodedOfReadInts(data, 4, r.length);
    assert data[..4 + 4 * r.length] == data[0..4] + data[4..4 + 4 * r.length];
  }

  /** A payload with a non-negative count allocates the table and reads that many `int`s after it. */
  lemma LoadLineNumbersAllocated(data: seq<byte>)
    requires |data| >= 4 && Int32At(data, 0) >= 0
    ensures LoadLineNumbers(data) == Allocated(Int32At(data, 0), ReadInts(data, 4, Int32At(data, 0)))
  {
  }

  /**
   * A payload that declares `n` numbers but holds only the first `xs` of them
   * (and fewer than four bytes more) gives an array of length `n` that is
   * not complete, whose read slots are `xs`.
   */
  lemma LineNumbersTruncated(n: int32, xs: seq<int32>, rest: seq<byte>)
    requires |xs| < n && |rest| < 4
    ensures LoadLineNumbers(Int32Bytes(n) + IntsBytes(xs) + rest) == Allocated(n, xs)
  {
    var data := Int32Bytes(n) + IntsBytes(xs) + rest;
    TruncatedPayload(n, xs, rest, data);
    LoadLineNumbersAllocated(data);
  }

  /** The count and the `int`s a cut-short line-number payload holds. */
  lemma TruncatedPayload(n: int32, xs: seq<int32>, rest: seq<byte>, data: seq<byte>)
    requires |xs| < n && |rest| < 4 && data == Int32Bytes(n) + IntsBytes(xs) + rest
    ensures |data| >= 4 && Int32At(data, 0) == n && ReadInts(data, 4, n) == xs
  {
    assert data[0..4 + 4 * |xs|] == Int32Bytes(n) + IntsBytes(xs);
    SliceSplit(data, 0, 4, 4 + 4 * |xs|, Int32Bytes(n), IntsBytes(xs));
    Int32RoundTrip(n, data, 0);
    ReadIntsOfTruncated(xs, data, 4, n);
  }

  lemma LineNumbersExample()
    ensures LoadLineNumbers(EncodeLineNumbers([0, 7, 1000000, -5])) == Allocated(4, [0, 7, 1000000, -5])
  {
    LineNumbersRoundTrip([0, 7, 1000000, -5], []);
    assert EncodeLineNumbers([0, 7, 1000000, -5]) + [] == EncodeLineNumbers([0, 7, 1000000, -5]);
  }

  // ----- the html payload -----

  /** The strings a loop of `k` `readUTF` calls from `pos` obtains before the stream runs out. */
  function ReadUtfs(data: seq<byte>, pos: nat, k: nat): (r: seq<Utf>)
    ensures |r| <= k
    decreases k
  {
    if k == 0 || !UtfFits(data, pos) then []
    else [UtfAt(data, pos)] + ReadUtfs(data, UtfEnd(data, pos), k - 1)
  }

  /** `readHtmlData` on the bytes of its resource. */
  function LoadHtmlData(data: seq<byte>): (r: ArrayLoad<Utf>)
    ensures r.NotAllocated? <==> |data| < 4 || Int32At(data, 0) < 0
    ensures r.NotAllocated? ==> r.failure == (if |data| < 4 then EndOfStream else NegativeArraySize)
    ensures r.Allocated? ==> r.length == Int32At(data, 0) && |r.items| <= r.length
  {
    if |data| < 4 then NotAllocated(EndOfStream)
    else
      var n := Int32At(data, 0);
      if n < 0 then NotAllocated(NegativeArraySize) else Allocated(n, ReadUtfs(data, 4, n))
  }

  function UtfsBytes(parts: seq<Utf>): (r: seq<byte>)
    ensures |r| >= 2 * |parts|
  {
    if parts == [] then [] else UtfBytes(parts[0]) + UtfsBytes(parts[1..])
  }

  /** What `writeInt(parts.length)` followed by `writeUTF` of each part emits. */
  function EncodeHtmlData(parts: seq<Utf>): (r: seq<byte>)
    requires |parts| <= MAX_INT
    ensures |r| == 4 + |UtfsBytes(parts)|
  {
    Int32Bytes(|parts|) + UtfsBytes(parts)
  }

  /** Reading `parts` from `pos` is reading its first part there and the rest after it. */
  lemma ReadUtfsStep(data: seq<byte>, pos: nat, parts: seq<Utf>)
    requires parts != [] && UtfFits(data, pos) && UtfAt(data, pos) == parts[0]
    requires ReadUtfs(data, UtfEnd(data, pos), |parts| - 1) == parts[1..]
    ensures ReadUtfs(data, pos, |parts|) == parts
  {
    calc {
      ReadUtfs(data, pos, |parts|);
      [UtfAt(data, pos)] + ReadUtfs(data, UtfEnd(data, pos), |parts| - 1);
      [parts[0]] + parts[1..];
      parts;
    }
  }

  /** The first entry of encoded parts reads back as the first part, and the rest follows it. */
  lemma EncodedHead(parts: seq<Utf>, data: seq<byte>, pos: nat)
    requires parts != []
    requires pos + |UtfsBytes(parts)| <= |data| && data[pos..pos + |UtfsBytes(parts)|] == UtfsBytes(parts)
    ensures UtfFits(data, pos) && UtfEnd(data, pos) == pos + 2 + |parts[0]| && UtfAt(data, pos) == parts[0]
    ensures UtfEnd(data, pos) + |UtfsBytes(parts[1..])| <= |data|
    ensures data[UtfEnd(data, pos)..UtfEnd(data, pos) + |UtfsBytes(parts[1..])|] == UtfsBytes(parts[1..])
  {
    var s, tail := parts[0], parts[1..];
    var next := pos + 2 + |s|;
    assert UtfsBytes(parts) == UtfBytes(s) + UtfsBytes(tail);
    SliceSplit(data, pos, next, pos + |UtfsBytes(parts)|, UtfBytes(s), UtfsBytes(tail));
    UtfRoundTrip(s, data, pos);
  }

  lemma {:induction false} ReadUtfsOfEncoded(parts: seq<Utf>, data: seq<byte>, pos: nat)
    requires pos + |UtfsBytes(parts)| <= |data| && data[pos..pos + |UtfsBytes(parts)|] == UtfsBytes(parts)
    ensures ReadUtfs(data, pos, |parts|) == parts
    decreases |parts|
  {
    if parts != [] {
      EncodedHead(parts, data, pos);
      ReadUtfsOfEncoded(parts[1..], data, UtfEnd(data, pos));
      ReadUtfsStep(data, pos, parts);
    }
  }

  /** The encoding of an entry followed by the encoding of the entries after it. */
  lemma EncodedJoin(data: seq<byte>, pos: nat, s: Utf, rest: seq<Utf>)
    requires UtfFits(data, pos) && UtfAt(data, pos) == s
    requires UtfEnd(data, pos) + |UtfsBytes(rest)| <= |data|
    requires data[UtfEnd(data, pos)..UtfEnd(data, pos) + |UtfsBytes(rest)|] == UtfsBytes(rest)
    ensures pos + |UtfsBytes([s] + rest)| <= |data|
    ensures UtfsBytes([s] + rest) == data[pos..pos + |UtfsBytes([s] + rest)|]
  {
    var end := UtfEnd(data, pos);
    UtfBytesOfRead(data, pos);
    assert ([s] + rest)[1..] == rest;
    calc {
      UtfsBytes([s] + rest);
      UtfBytes(s) + UtfsBytes(rest);
      data[pos..end] + data[end..end + |UtfsBytes(rest)|];
      data[pos..end + |UtfsBytes(rest)|];
    }
  }

  lemma {:induction false} EncodedOfReadUtfs(data: seq<byte>, pos: nat, k: nat)
    requires pos <= |data| && |ReadUtfs(data, pos, k)| == k
    ensures var r := ReadUtfs(data, pos, k);
      pos + |UtfsBytes(r)| <= |data| && UtfsBytes(r) == data[pos..pos + |UtfsBytes(r)|]
    decreases k
  {
    if k > 0 {
      assert UtfFits(data, pos);
      var rest := ReadUtfs(data, UtfEnd(data, pos), k - 1);
      assert ReadUtfs(data, pos, k) == [UtfAt(data, pos)] + rest;
      EncodedOfReadUtfs(data, UtfEnd(data, pos), k - 1);
      EncodedJoin(data, pos, UtfAt(data, pos), rest);
    }
  }

  /** One more `readUTF` that fits extends what has been read by the entry at `pos`. */
  lemma ReadUtfsAdvance(data: seq<byte>, start: nat, pos: nat, k: nat, read: seq<Utf>)
    requires k > 0 && UtfFits(data, pos)
    requires read + ReadUtfs(data, pos, k) == ReadUtfs(data, start, k + |read|)
    ensures (read + [UtfAt(data, pos)]) + ReadUtfs(data, UtfEnd(data, pos), k - 1) == ReadUtfs(data, start, k + |read|)
  {
    assert ReadUtfs(data, pos, k) == [UtfAt(data, pos)] + ReadUtfs(data, UtfEnd(data, pos), k - 1);
    assert (read + [UtfAt(data, pos)]) + ReadUtfs(data, UtfEnd(data, pos), k - 1) == read + ReadUtfs(data, pos, k);
  }

  /** Reading encoded html parts gives back the parts, in order, whatever follows them. */
  lemma HtmlDataRoundTrip(parts: seq<Utf>, rest: seq<byte>)
    requires |parts| <= MAX_INT
    ensures LoadHtmlData(EncodeHtmlData(parts) + rest) == Allocated(|parts|, parts)
  {
    var data := EncodeHtmlData(parts) + rest;
    SliceSplit(data, 0, 4, 4 + |UtfsBytes(parts)|, Int32Bytes(|parts|), UtfsBytes(parts));
    Int32RoundTrip(|parts|, data, 0);
    ReadUtfsOfEncoded(parts, data, 4);
  }

  /** A complete read consumed exactly `4 + sum(2 + |s_i|)` bytes, the encoding of what was read. */
  lemma HtmlDataReencode(data: seq<byte>)
    requires LoadHtmlData(data).Complete()
    ensures var r := LoadHtmlData(data); var n := |EncodeHtmlData(r.items)|;
      n <= |data| && data[..n] == EncodeHtmlData(r.items)
  {
    var r := LoadHtmlData(data);
    Int32BytesOfRead(data, 0);
    EncodedOfReadUtfs(data, 4, r.length);
    var n := |EncodeHtmlData(r.items)|;
    assert data[..n] == data[0..4] + data[4..n];
  }

  // ----- the arrays Java leaves behind -----

  /** An `int[length]` whose first slots hold `items` and the rest Java's default 0. */
  function ZeroFilled(items: seq<int32>, length: nat): (r: seq<int32>)
    requires |items| <= length
    ensures |r| == length
  {
    items + seq(length - |items|, _ => 0)
  }

  /** The slots of a partly filled `int[]`: the items first, zeros after them. */
  lemma ZeroFilledSlots(items: seq<int32>, length: nat)
    requires |items| <= length
    ensures ZeroFilled(items, length)[..|items|] == items
    ensures forall j :: |items| <= j < length ==> ZeroFilled(items, length)[j] == 0
  {
  }

  /** Storing the next item into a partly filled `int[]`. */
  lemma ZeroFilledStore(items: seq<int32>, x: int32, length: nat)
    requires |items| < length
    ensures ZeroFilled(items, length)[|items| := x] == ZeroFilled(items + [x], length)
  {
  }

  /** A `String[length]` whose first slots hold `items` and the rest `null`. */
  function NullFilled(items: seq<Utf>, length: nat): (r: seq<Option<Utf>>)
    requires |items| <= length
    ensures |r| == length
  {
    seq(length, j => if 0 <= j < |items| then Some(items[j]) else None)
  }

  /** The slots of a partly filled `String[]`: the items first, nulls after them. */
  lemma NullFilledSlots(items: seq<Utf>, length: nat)
    requires |items| <= length
    ensures forall j :: 0 <= j < |items| ==> NullFilled(items, length)[j] == Some(items[j])
    ensures forall j :: |items| <= j < length ==> NullFilled(items, length)[j] == None
  {
  }

  /** Storing the next item into a partly filled `String[]`. */
  lemma NullFilledStore(items: seq<Utf>, x: Utf, length: nat)
    requires |items| < length
    ensures NullFilled(items, length)[|items| := Some(x)] == NullFilled(items + [x], length)
  {
  }
}
