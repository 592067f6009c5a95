/** Document fingerprints and titles (`backend/utils/hash_utils.py`).
    SHA-256 itself is not modelled: its 32-byte digest is a parameter (the
    document handler holds the digest function); what is modelled exactly
    is the lower-case hex encoding and its truncation to 16 characters. */
module HashUtils {
  import opened Text

  /** A SHA-256 digest: 32 bytes. */
  type Digest = d: seq<bv8> | |d| == 32 witness seq(32, _ => 0 as bv8)

  predicate IsLowerHex(c: char) {
    ('0' <= c <= '9') || ('a' <= c <= 'f')
  }

  function HexDigit(n: nat): (c: char)
    requires n < 16
    ensures IsLowerHex(c)
  {
    if n < 10 then ('0' as int + n) as char else ('a' as int + n - 10) as char
  }

  /** The value of a lower-case hex digit. */
  function HexValue(c: char): (n: nat)
    requires IsLowerHex(c)
    ensures n < 16 && HexDigit(n) == c
  {
    if c <= '9' then (c as int) - ('0' as int) else (c as int) - ('a' as int) + 10
  }

  /** `hexdigest()`: two lower-case hex digits per byte, high nibble first. */
  function HexEncode(bytes: seq<bv8>): (h: string)
    ensures |h| == 2 * |bytes|
    ensures forall i :: 0 <= i < |h| ==> IsLowerHex(h[i])
  {
    if bytes == [] then []
    else
      var b := bytes[0] as int;
      [HexDigit(b / 16), HexDigit(b % 16)] + HexEncode(bytes[1..])
  }

  /** The partner of `HexEncode`: reads pairs of hex digits back into bytes. */
  function HexDecode(h: string): (bytes: seq<bv8>)
    requires |h| % 2 == 0 && forall i :: 0 <= i < |h| ==> IsLowerHex(h[i])
    ensures |bytes| == |h| / 2
    decreases |h|
  {
    if h == [] then []
    else [ByteOf(HexValue(h[0]), HexValue(h[1]))] + HexDecode(h[2..])
  }

  lemma HexValueOfDigit(n: nat)
    requires n < 16
    ensures HexValue(HexDigit(n)) == n
  {
  }

  /** The byte whose high and low nibbles are `hi` and `lo`. */
  function ByteOf(hi: nat, lo: nat): bv8
    requires hi < 16 && lo < 16
  {
    (16 * hi + lo) as bv8
  }

  /** One byte survives the split into two hex digits. */
  lemma ByteNibbles(b: bv8)
    ensures ByteOf((b as int) / 16, (b as int) % 16) == b
  {
    var n := b as int;
    assert 16 * (n / 16) + n % 16 == n;
  }

  /** Encoding then decoding gives the bytes back. */
  lemma {:induction false} HexRoundTrip(bytes: seq<bv8>)
    ensures HexDecode(HexEncode(bytes)) == bytes
  {
    if bytes != [] {
      var h := HexEncode(bytes);
      var n := bytes[0] as int;
      var hi, lo := HexDigit(n / 16), HexDigit(n % 16);
      assert h == [hi, lo] + HexEncode(bytes[1..]);
      assert h[2..] == HexEncode(bytes[1..]);
      HexValueOfDigit(n / 16);
      HexValueOfDigit(n % 16);
      ByteNibbles(bytes[0]);
      HexRoundTrip(bytes[1..]);
      assert HexDecode(h) == [ByteOf(HexValue(hi), HexValue(lo))] + HexDecode(h[2..]);
    }
  }

  /** The first `2k` hex digits encode exactly the first `k` bytes. */
  lemma {:induction false} HexEncodePrefix(bytes: seq<bv8>, k: nat)
    requires k <= |bytes|
    ensures HexEncode(bytes)[..2 * k] == HexEncode(bytes[..k])
  {
    if k > 0 {
      HexEncodePrefix(bytes[1..], k - 1);
      assert bytes[..k][1..] == bytes[1..][..k - 1];
    }
  }

  /** `compute_file_hash`: the first 16 characters of the hex digest. */
  function ComputeFileHash(digest: Digest): (id: string)
    ensures |id| == 16
    ensures forall i :: 0 <= i < |id| ==> IsLowerHex(id[i])
  {
    HexEncode(digest)[..16]
  }

  /** The 16-character id is the hex encoding of the first 8 digest bytes,
      and those bytes can be read back from it. */
  lemma FileHashIsEightBytes(digest: Digest)
    ensures ComputeFileHash(digest) == HexEncode(digest[..8])
    ensures HexDecode(ComputeFileHash(digest)) == digest[..8]
  {
    HexEncodePrefix(digest, 8);
    HexRoundTrip(digest[..8]);
  }

  /** The document id of a text: `compute_file_hash` over its UTF-8 bytes,
      given the digest function. */
  function DocumentIdOf(sha256: seq<bv8> -> Digest, text: string): (id: string)
    ensures |id| == 16
  {
    ComputeFileHash(sha256(Utf8Encode(text)))
  }

  /** The line `extract_title_from_content` works on: the text before the
      first newline, stripped, with leading `#` removed, stripped again. */
  function TitleLine(text: string): (line: string)
    ensures IsStripped(line) && '\n' !in line
  {
    var first := Strip(Split(text, '\n')[0]);
    assert Split(text, '\n')[0] in Split(text, '\n');
    StripKeepsOut(Split(text, '\n')[0], '\n');
    StripKeepsOut(LStripChar(first, '#'), '\n');
    Strip(LStripChar(first, '#'))
  }

  /** The last two steps of `extract_title_from_content` on its processed
      line: truncation to `max_length` characters plus `"..."`, then the
      fallback for an empty result. */
  function ShortenTitle(line: string, maxLength: int): (title: string)
    requires '\n' !in line
    ensures title != [] && '\n' !in title
    ensures if 0 <= maxLength < |line| then title == line[..maxLength] + "..."
      else if 0 <= maxLength && line != [] then title == line
      else if 0 <= maxLength then title == "Untitled Document"
      else |title| >= 3 && title[|title| - 3..] == "..."
  {
    var shortened := if |line| > maxLength then PySlice(line, 0, maxLength) + "..." else line;
    if shortened == [] then "Untitled Document" else shortened
  }

  /** `extract_title_from_content(text, max_length)`. */
  function ExtractTitle(text: string, maxLength: int): (title: string)
    ensures title != [] && '\n' !in title
    ensures var line := TitleLine(text);
      if 0 <= maxLength < |line| then title == line[..maxLength] + "..."
      else if 0 <= maxLength && line != [] then title == line
      else if 0 <= maxLength then title == "Untitled Document"
      else |title| >= 3 && title[|title| - 3..] == "..."
  {
    ShortenTitle(TitleLine(text), maxLength)
  }

  /** The default `max_length` of 50. */
  function ExtractTitleDefault(text: string): (title: string)
    ensures 1 <= |title| <= 53
  {
    ExtractTitle(text, 50)
  }
}
