/** The pure parts of src/gcs.rs: parsing a `gs://bucket/prefix/` path,
    drawing a multipart boundary that does not occur in the parts it
    separates, and laying out the `multipart/related` upload body. */
module Gcs {
  import opened Wrappers
  import opened Ints

  /* ----- GCS paths ----- */

  datatype Path = Path(bucket: string, prefix: string)

  datatype PathError =
    | MissingScheme(input: string)
    | PrefixWithoutSlash(prefix: string)

  const Scheme: string := "gs://"

  predicate StartsWith(s: string, p: string)
  {
    |p| <= |s| && s[..|p|] == p
  }

  /** `str::find` for a single character: the index of its first occurrence. */
  function FirstIndexOf(s: string, c: char): (r: Option<nat>)
    ensures r.None? <==> c !in s
    ensures r.Some? ==> r.value < |s| && s[r.value] == c && c !in s[..r.value]
  {
    if s == [] then None
    else if s[0] == c then Some(0)
    else
      match FirstIndexOf(s[1..], c)
      case None => None
      case Some(i) =>
        assert s[..i + 1] == [s[0]] + s[1..][..i];
        Some(i + 1)
  }

  /** `str::strip_prefix`. */
  function StripPrefix(s: string, p: string): (r: Option<string>)
    ensures r.Some? <==> StartsWith(s, p)
    ensures r.Some? ==> s == p + r.value
  {
    if StartsWith(s, p) then
      assert s == p + s[|p|..];
      Some(s[|p|..])
    else None
  }

  /** `str::split_once` at a character: the text before and after its first
      occurrence. */
  function SplitOnce(s: string, c: char): (r: Option<(string, string)>)
    ensures r.None? <==> c !in s
    ensures r.Some? ==> s == r.value.0 + [c] + r.value.1 && c !in r.value.0
  {
    match FirstIndexOf(s, c)
    case None => None
    case Some(i) =>
      assert s == s[..i] + [c] + s[i + 1..];
      Some((s[..i], s[i + 1..]))
  }

  /** The split is determined by the part before the first occurrence. */
  lemma SplitOnceUnique(before: string, c: char, after: string)
    requires c !in before
    ensures SplitOnce(before + [c] + after, c) == Some((before, after))
  {
    var s := before + [c] + after;
    assert s[..|before|] == before && s[|before|] == c;
    assert s[|before| + 1..] == after;
    var i := FirstIndexOf(s, c).value;
    assert i == |before| by {
      assert forall j :: 0 <= j < |before| ==> s[..|before|][j] == s[j];
      assert forall j :: |before| < j <= |s| ==> s[..j][|before|] == c;
    }
  }

  /** `Path::from_str`: strip the scheme, then parse the location after it. */
  function ParsePath(s: string): (r: Result<Path, PathError>)
    ensures r == Err(MissingScheme(s)) <==> !StartsWith(s, Scheme)
    ensures StartsWith(s, Scheme) ==> s == Scheme + s[|Scheme|..] && r == ParseLocation(s[|Scheme|..])
  {
    match StripPrefix(s, Scheme)
    case None => Err(MissingScheme(s))
    case Some(rest) => ParseLocation(rest)
  }

  /** The part of `Path::from_str` after the scheme: split at the first `/`
      into bucket and prefix, and refuse a non-empty prefix that does not
      end in `/`. */
  function ParseLocation(rest: string): (r: Result<Path, PathError>)
    ensures r.Ok? ==> WellFormedPath(r.value)
    ensures r.Ok? ==> if '/' in rest then rest == r.value.bucket + "/" + r.value.prefix
                      else rest == r.value.bucket && r.value.prefix == []
    ensures r.Err? ==> r.error.PrefixWithoutSlash?
    ensures r.Err? ==>
              var p := r.error.prefix;
                p != [] && p[|p| - 1] != '/' && exists bucket :: rest == bucket + "/" + p && '/' !in bucket
  {
    match SplitOnce(rest, '/')
    case None => Ok(Path(rest, ""))
    case Some((bucket, prefix)) =>
      if prefix != [] && prefix[|prefix| - 1] != '/' then Err(PrefixWithoutSlash(prefix))
      else Ok(Path(bucket, prefix))
  }

  /** A path the parser accepts, written back out. */
  predicate WellFormedPath(p: Path)
  {
    '/' !in p.bucket && (p.prefix == [] || p.prefix[|p.prefix| - 1] == '/')
  }

  /** Parsing `gs://bucket/prefix` gives back the bucket and the prefix. */
  lemma ParsePathRoundTrip(p: Path)
    requires WellFormedPath(p)
    ensures ParsePath(Scheme + p.bucket + "/" + p.prefix) == Ok(p)
  {
    var rest := p.bucket + "/" + p.prefix;
    var s := Scheme + rest;
    assert s == Scheme + p.bucket + "/" + p.prefix;
    assert s[..|Scheme|] == Scheme && s[|Scheme|..] == rest;
    SplitOnceUnique(p.bucket, '/', p.prefix);
  }

  /** A bare bucket, with no slash at all, parses with an empty prefix. */
  lemma ParseBareBucket(bucket: string)
    requires '/' !in bucket
    ensures ParsePath(Scheme + bucket) == Ok(Path(bucket, ""))
  {
    var s := Scheme + bucket;
    assert s[..|Scheme|] == Scheme && s[|Scheme|..] == bucket;
  }

  /** A non-empty prefix without its trailing slash is refused, and the
      error names the prefix. */
  lemma ParsePathRejectsUnslashedPrefix(bucket: string, prefix: string)
    requires '/' !in bucket && prefix != [] && prefix[|prefix| - 1] != '/'
    ensures ParsePath(Scheme + bucket + "/" + prefix) == Err(PrefixWithoutSlash(prefix))
  {
    var rest := bucket + "/" + prefix;
    var s := Scheme + rest;
    assert s == Scheme + bucket + "/" + prefix;
    assert s[..|Scheme|] == Scheme && s[|Scheme|..] == rest;
    ParseLocationRejects(bucket, prefix);
  }

  lemma ParseLocationRejects(bucket: string, prefix: string)
    requires '/' !in bucket && prefix != [] && prefix[|prefix| - 1] != '/'
    ensures ParseLocation(bucket + "/" + prefix) == Err(PrefixWithoutSlash(prefix))
  {
    SplitOnceUnique(bucket, '/', prefix);
  }

  /* ----- Hexadecimal rendering ----- */

  predicate IsHexDigit(c: char)
  {
    '0' <= c <= '9' || 'a' <= c <= 'f'
  }

  function HexChar(v: nat): (c: char)
    requires v < 16
    ensures IsHexDigit(c)
  {
    if v < 10 then '0' + v as char else 'a' + (v - 10) as char
  }

  function HexValue(c: char): nat
  {
    if '0' <= c <= '9' then c as int - '0' as int
    else if 'a' <= c <= 'f' then c as int - 'a' as int + 10
    else 0
  }

  function Pow16(n: nat): (p: nat)
    ensures p >= 1
  {
    if n == 0 then 1 else 16 * Pow16(n - 1)
  }

  /** The `n` low hexadecimal digits of `x`, most significant first, in
      lowercase and zero-padded (`{:0nx}` once `x < 16^n`). */
  function HexDigits(x: nat, n: nat): (s: string)
    ensures |s| == n && forall i :: 0 <= i < n ==> IsHexDigit(s[i])
  {
    if n == 0 then "" else HexDigits(x / 16, n - 1) + [HexChar(x % 16)]
  }

  /** Reading hexadecimal digits back, most significant first. */
  function ParseHex(s: string): nat
  {
    if s == [] then 0 else ParseHex(s[..|s| - 1]) * 16 + HexValue(s[|s| - 1])
  }

  lemma HexValueOfChar(v: nat)
    requires v < 16
    ensures HexValue(HexChar(v)) == v
  {
  }

  /** Reading back `n` digits of a number below `16^n` gives the number. */
  lemma {:induction false} ParseHexDigits(x: nat, n: nat)
    requires x < Pow16(n)
    ensures ParseHex(HexDigits(x, n)) == x
  {
    if n > 0 {
      var q, d := x / 16, x % 16;
      var s := HexDigits(x, n);
      assert s == HexDigits(q, n - 1) + [HexChar(d)];
      assert s[..|s| - 1] == HexDigits(q, n - 1) && s[|s| - 1] == HexChar(d);
      assert q < Pow16(n - 1);
      ParseHexDigits(q, n - 1);
      HexValueOfChar(d);
      assert ParseHex(s) == q * 16 + d;
    }
  }

  lemma Pow16Is32Bits()
    ensures Pow16(8) == 0x1_0000_0000
  {
  }

  /** `format!("{:08x}", x)` for a `u32`: eight digits always suffice. */
  function Hex8(x: U32): (s: string)
    ensures |s| == 8 && forall i :: 0 <= i < 8 ==> IsHexDigit(s[i])
  {
    HexDigits(x, 8)
  }

  /** The eight digits read back as the word they render. */
  lemma Hex8RoundTrip(x: U32)
    ensures ParseHex(Hex8(x)) == x
  {
    Pow16Is32Bits();
    ParseHexDigits(x, 8);
  }

  /* ----- Multipart boundaries ----- */

  /** Every character is ASCII, so each is one byte. */
  predicate IsAscii(s: string)
  {
    forall i :: 0 <= i < |s| ==> s[i] as int < 128
  }

  /** `str::as_bytes` for an ASCII string. */
  function Ascii(s: string): (b: seq<Byte>)
    requires IsAscii(s)
    ensures |b| == |s| && forall i :: 0 <= i < |s| ==> b[i] == s[i] as int
  {
    seq(|s|, i requires 0 <= i < |s| => s[i] as int)
  }


  /** The four random words of one `multipart_boundary()` call. */
  datatype Draw = Draw(a: U32, b: U32, c: U32, d: U32)

  /** `multipart_boundary`: the four words in hexadecimal, joined by `-`. */
  function MultipartBoundary(w: Draw): (s: string)
    ensures |s| == 35 && IsAscii(s)
    ensures s[..8] == Hex8(w.a) && s[9..17] == Hex8(w.b) && s[18..26] == Hex8(w.c) && s[27..] == Hex8(w.d)
  {
    var s := Hex8(w.a) + "-" + Hex8(w.b) + "-" + Hex8(w.c) + "-" + Hex8(w.d);
    assert forall i :: 0 <= i < 8 ==> s[i] == Hex8(w.a)[i] && s[9 + i] == Hex8(w.b)[i]
                                       && s[18 + i] == Hex8(w.c)[i] && s[27 + i] == Hex8(w.d)[i];
    s
  }

  /** The boundary is 32 lowercase hexadecimal digits in four groups of
      eight, separated by dashes at positions 8, 17 and 26. */
  lemma MultipartBoundaryLayout(w: Draw)
    ensures var s := MultipartBoundary(w);
              forall i :: 0 <= i < 35 ==> if i == 8 || i == 17 || i == 26 then s[i] == '-' else IsHexDigit(s[i])
  {
    var s := MultipartBoundary(w);
    assert s == Hex8(w.a) + "-" + Hex8(w.b) + "-" + Hex8(w.c) + "-" + Hex8(w.d);
    assert forall i :: 0 <= i < 8 ==> s[i] == Hex8(w.a)[i] && s[9 + i] == Hex8(w.b)[i]
                                       && s[18 + i] == Hex8(w.c)[i] && s[27 + i] == Hex8(w.d)[i];
  }

  /** Two draws give the same boundary only if they are the same draw: no
      entropy is lost in the rendering. */
  lemma MultipartBoundaryInjective(v: Draw, w: Draw)
    requires MultipartBoundary(v) == MultipartBoundary(w)
    ensures v == w
  {
    assert Hex8(v.a) == Hex8(w.a) && Hex8(v.b) == Hex8(w.b);
    assert Hex8(v.c) == Hex8(w.c) && Hex8(v.d) == Hex8(w.d);
    Hex8RoundTrip(v.a); Hex8RoundTrip(w.a); Hex8RoundTrip(v.b); Hex8RoundTrip(w.b);
    Hex8RoundTrip(v.c); Hex8RoundTrip(w.c); Hex8RoundTrip(v.d); Hex8RoundTrip(w.d);
  }

  /** The bytes of the boundary drawn from `w`. */
  function BoundaryBytes(w: Draw): (b: seq<Byte>)
    ensures |b| == 35
  {
    Ascii(MultipartBoundary(w))
  }

  /* ----- Substring search ----- */

  predicate OccursAt(hay: seq<Byte>, needle: seq<Byte>, i: nat)
  {
    i + |needle| <= |hay| && hay[i..i + |needle|] == needle
  }

  /** `memmem::Finder::find` from position `i` on: the first occurrence. */
  function FindFrom(hay: seq<Byte>, needle: seq<Byte>, i: nat): (r: Option<nat>)
    requires i <= |hay|
    ensures r.Some? ==> i <= r.value && OccursAt(hay, needle, r.value)
                        && forall j :: i <= j < r.value ==> !OccursAt(hay, needle, j)
    ensures r.None? ==> forall j :: i <= j <= |hay| ==> !OccursAt(hay, needle, j)
    decreases |hay| - i
  {
    if i + |needle| > |hay| then None
    else if hay[i..i + |needle|] == needle then Some(i)
    else FindFrom(hay, needle, i + 1)
  }

  /** The first occurrence of `needle` in `hay`; an empty needle occurs at 0. */
  function Find(hay: seq<Byte>, needle: seq<Byte>): (r: Option<nat>)
    ensures r.Some? ==> OccursAt(hay, needle, r.value) && forall j :: 0 <= j < r.value ==> !OccursAt(hay, needle, j)
    ensures r.None? <==> forall j :: 0 <= j <= |hay| ==> !OccursAt(hay, needle, j)
  {
    FindFrom(hay, needle, 0)
  }

  /** The body is safe to delimit with `b`: it occurs in none of the three
      parts. */
  predicate Acceptable(b: seq<Byte>, meta: seq<Byte>, contentType: seq<Byte>, contents: seq<Byte>): (ok: bool)
    ensures ok <==> && (forall i :: 0 <= i <= |meta| ==> !OccursAt(meta, b, i))
                    && (forall i :: 0 <= i <= |contentType| ==> !OccursAt(contentType, b, i))
                    && (forall i :: 0 <= i <= |contents| ==> !OccursAt(contents, b, i))
  {
    Find(meta, b).None? && Find(contentType, b).None? && Find(contents, b).None?
  }

  /** The retry loop of `put_meta`: draw boundaries until one does not occur
      in the metadata JSON, the content type or the contents. `draws` are
      the successive random words; if they run out, there is no result. */
  method ChooseBoundary(draws: seq<Draw>, meta: seq<Byte>, contentType: seq<Byte>, contents: seq<Byte>)
    returns (r: Option<string>)
    ensures r.None? ==>
              forall i :: 0 <= i < |draws| ==> !Acceptable(BoundaryBytes(draws[i]), meta, contentType, contents)
    ensures r.Some? ==>
              exists i :: 0 <= i < |draws| && r.value == MultipartBoundary(draws[i])
                && Acceptable(BoundaryBytes(draws[i]), meta, contentType, contents)
                && forall j :: 0 <= j < i ==> !Acceptable(BoundaryBytes(draws[j]), meta, contentType, contents)
  {
    var i := 0;
    while i < |draws|
      invariant 0 <= i <= |draws|
      invariant forall j :: 0 <= j < i ==> !Acceptable(BoundaryBytes(draws[j]), meta, contentType, contents)
    {
      var boundary := MultipartBoundary(draws[i]);
      var bytes := BoundaryBytes(draws[i]);
      if Find(meta, bytes).Some? {
        i := i + 1;
        continue;
      }
      if Find(contentType, bytes).Some? {
        i := i + 1;
        continue;
      }
      if Find(contents, bytes).Some? {
        i := i + 1;
        continue;
      }
      assert Acceptable(bytes, meta, contentType, contents);
      return Some(boundary);
    }
    return None;
  }

  /** An acceptable boundary is a substring of none of the three parts. */
  lemma AcceptableNotSubstring(b: seq<Byte>, meta: seq<Byte>, contentType: seq<Byte>, contents: seq<Byte>, i: nat, j: nat)
    requires Acceptable(b, meta, contentType, contents) && i <= j
    ensures (j <= |meta| ==> meta[i..j] != b) && (j <= |contentType| ==> contentType[i..j] != b)
    ensures j <= |contents| ==> contents[i..j] != b
  {
    assert !OccursAt(meta, b, i) && !OccursAt(contentType, b, i) && !OccursAt(contents, b, i);
  }

  /* ----- The multipart body ----- */

  const CrLf: seq<Byte> := [0x0d, 0x0a]
  const Dashes: seq<Byte> := [0x2d, 0x2d]

  /** `Content-Type: `, the start of both part headers. */
  const ContentTypeField: seq<Byte> :=
    [0x43, 0x6f, 0x6e, 0x74, 0x65, 0x6e, 0x74, 0x2d, 0x54, 0x79, 0x70, 0x65, 0x3a, 0x20]

  /** `application/json; charset=UTF-8`. */
  const JsonMediaType: seq<Byte> :=
    [0x61, 0x70, 0x70, 0x6c, 0x69, 0x63, 0x61, 0x74, 0x69, 0x6f, 0x6e, 0x2f, 0x6a, 0x73, 0x6f, 0x6e,
     0x3b, 0x20, 0x63, 0x68, 0x61, 0x72, 0x73, 0x65, 0x74, 0x3d, 0x55, 0x54, 0x46, 0x2d, 0x38]

  /** The header of the metadata part and the blank line after it. */
  const JsonPartHeader: seq<Byte> := ContentTypeField + JsonMediaType + CrLf + CrLf

  lemma ConstantLengths()
    ensures |CrLf| == 2 && |Dashes| == 2 && |ContentTypeField| == 14 && |JsonPartHeader| == 49
  {
  }

  /** The byte constants spell the header text of the source. */
  lemma HeaderText()
    ensures Ascii("Content-Type: ") == ContentTypeField
    ensures Ascii("application/json; charset=UTF-8") == JsonMediaType
    ensures Ascii("\r\n") == CrLf && Ascii("--") == Dashes
  {
  }

  /** The body `put_meta` uploads, as the code lays it out: the opening
      delimiter, the JSON metadata part, the second delimiter immediately
      followed (with no line break) by the media part's header, the
      contents, and the closing delimiter. */
  function MultipartBody(b: seq<Byte>, meta: seq<Byte>, contentType: seq<Byte>, contents: seq<Byte>): (body: seq<Byte>)
    ensures |body| == 85 + 3 * |b| + |meta| + |contentType| + |contents|
    ensures body[..2 + |b|] == Dashes + b
  {
    Dashes + b + CrLf + JsonPartHeader + meta + CrLf + CrLf
    + Dashes + b + ContentTypeField + contentType + CrLf + CrLf
    + contents + CrLf
    + Dashes + b + Dashes + CrLf
  }

  /** Building the body by successive appends, as `put_meta` does. */
  method BuildBody(b: seq<Byte>, meta: seq<Byte>, contentType: seq<Byte>, contents: seq<Byte>) returns (body: seq<Byte>)
    ensures body == MultipartBody(b, meta, contentType, contents)
  {
    body := [];
    body := body + Dashes;
    assert body == Dashes;
    body := body + b;
    body := body + CrLf;
    body := body + JsonPartHeader;
    body := body + meta;
    body := body + CrLf + CrLf;
    body := body + Dashes;
    body := body + b;
    body := body + ContentTypeField;
    body := body + contentType;
    body := body + CrLf + CrLf;
    body := body + contents;
    body := body + CrLf;
    body := body + Dashes;
    body := body + b;
    body := body + Dashes + CrLf;
  }

  /* The layout lemmas below are first proved for the body's shape with
     every constant abstracted (`d` the dashes, `cr` the line break, `h` and
     `f` the two headers), then instantiated. */

  lemma ShapeFields(d: seq<Byte>, b: seq<Byte>, cr: seq<Byte>, h: seq<Byte>, meta: seq<Byte>, f: seq<Byte>, ct: seq<Byte>, contents: seq<Byte>)
    ensures var body := d + b + cr + h + meta + cr + cr + d + b + f + ct + cr + cr + contents + cr + d + b + d + cr;
            var m := |d| + |b| + |cr| + |h|;
            var t := m + |meta| + 2 * |cr| + |d| + |b| + |f|;
            var c := t + |ct| + 2 * |cr|;
            && body[m..m + |meta|] == meta
            && body[t..t + |ct|] == ct
            && body[c..c + |contents|] == contents
  {
  }

  lemma ShapeOpening(d: seq<Byte>, b: seq<Byte>, cr: seq<Byte>, h: seq<Byte>, meta: seq<Byte>, f: seq<Byte>, ct: seq<Byte>, contents: seq<Byte>)
    ensures var body := d + b + cr + h + meta + cr + cr + d + b + f + ct + cr + cr + contents + cr + d + b + d + cr;
            && |body| == 4 * |d| + 3 * |b| + 7 * |cr| + |h| + |meta| + |f| + |ct| + |contents|
            && body[..|d| + |b|] == d + b
  {
    var body := d + b + cr + h + meta + cr + cr + d + b + f + ct + cr + cr + contents + cr + d + b + d + cr;
    assert forall i :: 0 <= i < |d| + |b| ==> body[i] == (d + b)[i];
  }

  lemma ShapeDelimiters(d: seq<Byte>, b: seq<Byte>, cr: seq<Byte>, h: seq<Byte>, meta: seq<Byte>, f: seq<Byte>, ct: seq<Byte>, contents: seq<Byte>)
    ensures var body := d + b + cr + h + meta + cr + cr + d + b + f + ct + cr + cr + contents + cr + d + b + d + cr;
            var d2 := |d| + |b| + |cr| + |h| + |meta| + 2 * |cr|;
            body[d2..d2 + |d| + |b| + |f|] == d + b + f
  {
  }

  lemma ShapeClosing(d: seq<Byte>, b: seq<Byte>, cr: seq<Byte>, h: seq<Byte>, meta: seq<Byte>, f: seq<Byte>, ct: seq<Byte>, contents: seq<Byte>)
    ensures var body := d + b + cr + h + meta + cr + cr + d + b + f + ct + cr + cr + contents + cr + d + b + d + cr;
            var d3 := |d| + |b| + |cr| + |h| + |meta| + 2 * |cr| + |d| + |b| + |f| + |ct| + 2 * |cr| + |contents| + |cr|;
            body[d3..] == d + b + d + cr
  {
  }

  /** The metadata, the content type and the contents each appear verbatim,
      at offsets fixed by the lengths of what precedes them. */
  lemma MultipartBodyFields(b: seq<Byte>, meta: seq<Byte>, contentType: seq<Byte>, contents: seq<Byte>)
    ensures var body := MultipartBody(b, meta, contentType, contents);
            var m := 2 + |b| + 2 + 49;
            var t := m + |meta| + 4 + 2 + |b| + 14;
            var c := t + |contentType| + 4;
            && body[m..m + |meta|] == meta
            && body[t..t + |contentType|] == contentType
            && body[c..c + |contents|] == contents
  {
    ConstantLengths();
    var d, cr, h, f := Dashes, CrLf, JsonPartHeader, ContentTypeField;
    assert MultipartBody(b, meta, contentType, contents)
        == d + b + cr + h + meta + cr + cr + d + b + f + contentType + cr + cr + contents + cr + d + b + d + cr;
    ShapeFields(d, b, cr, h, meta, f, contentType, contents);
  }

  /** The body opens with `--b`, and the second `--b`, right after the
      metadata's blank line, runs straight into `Content-Type: ` with no
      line break between them. */
  lemma MultipartBodyDelimiters(b: seq<Byte>, meta: seq<Byte>, contentType: seq<Byte>, contents: seq<Byte>)
    ensures var body := MultipartBody(b, meta, contentType, contents);
            var d2 := 2 + |b| + 2 + 49 + |meta| + 4;
            && body[..2 + |b|] == Dashes + b
            && body[d2..d2 + 2 + |b| + 14] == Dashes + b + ContentTypeField
  {
    ConstantLengths();
    var d, cr, h, f := Dashes, CrLf, JsonPartHeader, ContentTypeField;
    assert MultipartBody(b, meta, contentType, contents)
        == d + b + cr + h + meta + cr + cr + d + b + f + contentType + cr + cr + contents + cr + d + b + d + cr;
    ShapeOpening(d, b, cr, h, meta, f, contentType, contents);
    ShapeDelimiters(d, b, cr, h, meta, f, contentType, contents);
  }

  /** The body ends with the closing delimiter `--b--` and a line break,
      right after the line break that follows the contents; nothing else
      is in it. */
  lemma MultipartBodyClosing(b: seq<Byte>, meta: seq<Byte>, contentType: seq<Byte>, contents: seq<Byte>)
    ensures var body := MultipartBody(b, meta, contentType, contents);
            var d3 := 2 + |b| + 2 + 49 + |meta| + 4 + 2 + |b| + 14 + |contentType| + 4 + |contents| + 2;
            && |body| == d3 + 2 + |b| + 4
            && body[d3 - 2..] == CrLf + Dashes + b + Dashes + CrLf
  {
    ConstantLengths();
    var d, cr, h, f := Dashes, CrLf, JsonPartHeader, ContentTypeField;
    assert MultipartBody(b, meta, contentType, contents)
        == d + b + cr + h + meta + cr + cr + d + b + f + contentType + cr + cr + contents + cr + d + b + d + cr;
    ShapeOpening(d, b, cr, h, meta, f, contentType, contents);
    ShapeClosing(d, b, cr, h, meta, f, contentType, contents);
  }

  /** The part of `put_meta` from the boundary loop to the finished body:
      the chosen boundary and the body delimited by it. */
  method PrepareBody(draws: seq<Draw>, meta: seq<Byte>, contentType: seq<Byte>, contents: seq<Byte>)
    returns (r: Option<(string, seq<Byte>)>)
    ensures r.Some? ==>
              && (exists i :: 0 <= i < |draws| && r.value.0 == MultipartBoundary(draws[i])
                   && forall j :: 0 <= j < i ==> !Acceptable(BoundaryBytes(draws[j]), meta, contentType, contents))
              && IsAscii(r.value.0)
              && Acceptable(Ascii(r.value.0), meta, contentType, contents)
              && r.value.1 == MultipartBody(Ascii(r.value.0), meta, contentType, contents)
    ensures r.None? ==>
              forall i :: 0 <= i < |draws| ==> !Acceptable(BoundaryBytes(draws[i]), meta, contentType, contents)
  {
    var boundary := ChooseBoundary(draws, meta, contentType, contents);
    if boundary.None? {
      return None;
    }
    var body := BuildBody(Ascii(boundary.value), meta, contentType, contents);
    return Some((boundary.value, body));
  }
}
