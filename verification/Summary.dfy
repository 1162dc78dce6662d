/**
 Summaries of request bodies for the audit log (internal/audit/summary.go): cutting
 text on a character boundary, and what a summary can depend on.
 Valid UTF-8 is as in sections 3 and 4 of RFC 3629.
 */
module Summary {
  import opened Base
  import opened Json
  import Redaction
  import Text

  type Byte = bv8
  type Bytes = seq<Byte>

  const MAX_SUMMARY_BYTES: nat := 2048
  const MAX_CONTENT_TYPE_BYTES: nat := 64

  /** An ellipsis (three bytes) and "[truncated]". */
  const SUFFIX: Bytes :=
    [0xE2, 0x80, 0xA6, 0x5B, 0x74, 0x72, 0x75, 0x6E, 0x63, 0x61, 0x74, 0x65, 0x64, 0x5D]

  /** "json" */
  const JSON: Bytes := [0x6A, 0x73, 0x6F, 0x6E]

  const SEMICOLON: Byte := 0x3B

  // ------------------------------------------------------------ cutting text

  /** A byte that continues a character. */
  predicate Continuation(b: Byte) {
    b & 0xC0 == 0x80
  }

  /** utf8ValidCut; the code never asks about i == |s|. */
  predicate ValidCut(s: Bytes, i: nat)
    requires i < |s|
  {
    i == 0 || !Continuation(s[i])
  }

  /** The last place at or before n where s may be cut. */
  function Cut(s: Bytes, n: nat): (cut: nat)
    requires n < |s|
    ensures cut <= n && ValidCut(s, cut)
    ensures forall j | cut < j <= n :: Continuation(s[j])
  {
    if n == 0 || ValidCut(s, n) then n else Cut(s, n - 1)
  }

  function Truncated(s: Bytes, n: nat): Bytes {
    if |s| <= n then s else s[..Cut(s, n)] + SUFFIX
  }

  // ------------------------------------------------------------- valid UTF-8

  predicate Tail(b: Byte) {
    0x80 <= b <= 0xBF
  }

  /** The character s starts with takes this many bytes; 0 when s starts with none. */
  function CharLength(s: Bytes): (n: nat)
    ensures n <= |s| && n <= 4
    ensures n > 0 ==> !Tail(s[0]) && forall i | 0 < i < n :: Tail(s[i])
  {
    if |s| >= 1 && s[0] <= 0x7F then 1
    else if |s| >= 2 && 0xC2 <= s[0] <= 0xDF && Tail(s[1]) then 2
    else if |s| >= 3 && Second3(s[0], s[1]) && Tail(s[2]) then 3
    else if |s| >= 4 && Second4(s[0], s[1]) && Tail(s[2]) && Tail(s[3]) then 4
    else 0
  }

  /** The first two bytes of a three-byte character. */
  predicate Second3(b0: Byte, b1: Byte) {
    || (b0 == 0xE0 && 0xA0 <= b1 <= 0xBF)
    || (0xE1 <= b0 <= 0xEC && Tail(b1))
    || (b0 == 0xED && 0x80 <= b1 <= 0x9F)
    || (0xEE <= b0 <= 0xEF && Tail(b1))
  }

  /** The first two bytes of a four-byte character. */
  predicate Second4(b0: Byte, b1: Byte) {
    || (b0 == 0xF0 && 0x90 <= b1 <= 0xBF)
    || (0xF1 <= b0 <= 0xF3 && Tail(b1))
    || (b0 == 0xF4 && 0x80 <= b1 <= 0x8F)
  }

  predicate ValidUtf8(s: Bytes) {
    s == [] || (CharLength(s) > 0 && ValidUtf8(s[CharLength(s)..]))
  }

  /** The mask picks out exactly the bytes that may follow a first byte. */
  lemma MaskIsTail(b: Byte)
    ensures Continuation(b) <==> Tail(b)
  {
    assert (b & 0xC0 == 0x80) == (0x80 <= b <= 0xBF);
  }

  /** The first character decides alone how long it is. */
  lemma CharLengthAppend(s: Bytes, t: Bytes)
    requires CharLength(s) > 0
    ensures CharLength(s + t) == CharLength(s)
  {
    assert (s + t)[..|s|] == s;
  }

  lemma {:induction false} ValidAppend(a: Bytes, b: Bytes)
    requires ValidUtf8(a) && ValidUtf8(b)
    ensures ValidUtf8(a + b)
  {
    if a == [] {
      assert a + b == b;
    } else {
      var k := CharLength(a);
      ValidAppend(a[k..], b);
      AppendAfterFirst(a, b);
    }
  }

  lemma AppendAfterFirst(a: Bytes, b: Bytes)
    requires CharLength(a) > 0 && ValidUtf8(a[CharLength(a)..] + b)
    ensures ValidUtf8(a + b)
  {
    CharLengthAppend(a, b);
    assert (a + b)[CharLength(a)..] == a[CharLength(a)..] + b;
  }

  /** A prefix of valid text is valid exactly when no character is cut in two. */
  lemma {:induction false} ValidPrefixIff(s: Bytes, i: nat)
    requires ValidUtf8(s) && i <= |s|
    ensures ValidUtf8(s[..i]) <==> i == |s| || !Tail(s[i])
  {
    if 0 < i < |s| {
      var k := CharLength(s);
      if i < k {
        CutShort(s, i);
      } else {
        ValidPrefixIff(s[k..], i - k);
        TakeThenDrop(s, k, i);
        LengthWithin(s, i);
      }
    } else {
      assert s[..|s|] == s;
    }
  }

  lemma TakeThenDrop(s: Bytes, k: nat, i: nat)
    requires k <= i <= |s|
    ensures s[..i][k..] == s[k..][..i - k]
  {
  }

  /** Part of a character is none. */
  lemma CutShort(s: Bytes, i: nat)
    requires 0 < i < CharLength(s)
    ensures !ValidUtf8(s[..i])
  {
    assert CharLength(s[..i]) == 0;
  }

  lemma LengthWithin(s: Bytes, i: nat)
    requires 0 < CharLength(s) <= i <= |s|
    ensures CharLength(s[..i]) == CharLength(s)
  {
    var t := s[..i];
    assert forall j | 0 <= j < i :: t[j] == s[j];
  }

  /** In valid text some byte among any four in a row starts a character. */
  lemma {:induction false} StartNearby(s: Bytes, i: nat) returns (j: nat)
    requires ValidUtf8(s) && i < |s|
    ensures i - 3 <= j <= i && !Tail(s[j])
  {
    var k := CharLength(s);
    if i < k {
      j := 0;
    } else {
      j := StartNearby(s[k..], i - k);
      j := j + k;
    }
  }

  /** r is the longest part of s within n bytes that ends where a character does, and the
      suffix behind it; or s itself, if that fits. */
  ghost predicate CutOff(s: Bytes, n: nat, r: Bytes) {
    if |s| <= n then r == s
    else exists k: nat :: k <= n && EndsPart(s, n, k) && r == s[..k] + SUFFIX
  }

  /** No character of s goes on at k, and one does everywhere between k and n. */
  predicate EndsPart(s: Bytes, n: nat, k: nat)
    requires k <= n < |s|
  {
    (k == 0 || !Tail(s[k])) && forall j | k < j <= n :: Tail(s[j])
  }

  method TruncateTo(s: Bytes, n: nat) returns (r: Bytes)
    ensures r == Truncated(s, n) && CutOff(s, n, r)
  {
    TruncatedIsCutOff(s, n);
    if |s| <= n {
      return s;
    }
    var cut: nat := n;
    while cut > 0 && !ValidCut(s, cut)
      invariant cut <= n && Cut(s, cut) == Cut(s, n)
    {
      cut := cut - 1;
    }
    return s[..cut] + SUFFIX;
  }

  lemma TruncatedIsCutOff(s: Bytes, n: nat)
    ensures CutOff(s, n, Truncated(s, n))
  {
    if |s| > n {
      var k := Cut(s, n);
      forall b: Byte
        ensures Continuation(b) <==> Tail(b)
      {
        MaskIsTail(b);
      }
      assert EndsPart(s, n, k) && Truncated(s, n) == s[..k] + SUFFIX;
    }
  }

  // ------------------------------------------------------- what a cut leaves

  /** Valid text is cut to valid text, at most three bytes below the limit, and no longer
      prefix within the limit is valid. */
  lemma CutIsTheBest(s: Bytes, n: nat)
    requires ValidUtf8(s) && n < |s|
    ensures n - 3 <= Cut(s, n) <= n && ValidUtf8(s[..Cut(s, n)])
    ensures forall i | Cut(s, n) < i <= n :: !ValidUtf8(s[..i])
  {
    var cut := Cut(s, n);
    var j := StartNearby(s, n);
    MaskIsTail(s[j]);
    MaskIsTail(s[cut]);
    ValidPrefixIff(s, cut);
    forall i | cut < i <= n ensures !ValidUtf8(s[..i]) {
      MaskIsTail(s[i]);
      ValidPrefixIff(s, i);
    }
  }

  lemma SuffixIsText()
    ensures |SUFFIX| == 14 && ValidUtf8(SUFFIX)
  {
    assert CharLength(SUFFIX) == 3;
    ValidAscii(SUFFIX[3..]);
  }

  lemma {:induction false} ValidAscii(s: Bytes)
    requires forall i | 0 <= i < |s| :: s[i] <= 0x7F
    ensures ValidUtf8(s)
  {
    if s == [] {
    } else {
      ValidAscii(s[1..]);
    }
  }

  /** A truncated text is valid text of bounded length. What is longer than the limit
      was cut, and only that: the whole text is never mistaken for a cut one. */
  lemma TruncatedIsText(s: Bytes, n: nat)
    requires ValidUtf8(s)
    ensures ValidUtf8(Truncated(s, n)) && |Truncated(s, n)| <= n + 14
    ensures |Truncated(s, n)| > n <==> |s| > n
  {
    SuffixIsText();
    if |s| > n {
      CutIsTheBest(s, n);
      ValidAppend(s[..Cut(s, n)], SUFFIX);
    }
  }

  // ------------------------------------------------------------- the summary

  /** The library calls: json.Unmarshal, json.Marshal and strings.TrimSpace. */
  datatype Library = Library(
    decode: Bytes -> Option<Value>,
    encode: Value -> Option<Bytes>,
    trim: Bytes -> Bytes
  )

  /** "[", ", " and " bytes]" */
  const OPENING: Bytes := [0x5B]
  const COMMA: Bytes := [0x2C, 0x20]
  const CLOSING: Bytes := [0x20, 0x62, 0x79, 0x74, 0x65, 0x73, 0x5D]

  /** "no content type", "unparsable json" and "unsummarizable json" */
  const NO_CONTENT_TYPE: Bytes :=
    [0x6E, 0x6F, 0x20, 0x63, 0x6F, 0x6E, 0x74, 0x65, 0x6E, 0x74, 0x20, 0x74, 0x79, 0x70, 0x65]
  const UNPARSABLE: Bytes :=
    [0x75, 0x6E, 0x70, 0x61, 0x72, 0x73, 0x61, 0x62, 0x6C, 0x65, 0x20, 0x6A, 0x73, 0x6F, 0x6E]
  const UNSUMMARIZABLE: Bytes :=
    [0x75, 0x6E, 0x73, 0x75, 0x6D, 0x6D, 0x61, 0x72, 0x69, 0x7A, 0x61, 0x62, 0x6C, 0x65, 0x20, 0x6A, 0x73, 0x6F, 0x6E]

  const DIGITS: Bytes := [0x30, 0x31, 0x32, 0x33, 0x34, 0x35, 0x36, 0x37, 0x38, 0x39]

  /** The %d of fmt.Sprintf, for a size. */
  function Decimal(n: nat): (digits: Bytes)
    ensures |digits| > 0
  {
    if n < 10 then [DIGITS[n]] else Decimal(n / 10) + [DIGITS[n % 10]]
  }

  /** "[kind, size bytes]" */
  function Message(kind: Bytes, size: nat): Bytes {
    OPENING + kind + COMMA + Decimal(size) + CLOSING
  }

  /** The first of the parts a semicolon divides s into. */
  function BeforeSemicolon(s: Bytes): (r: Bytes)
    ensures r <= s && SEMICOLON !in r
    ensures r == s || s[|r|] == SEMICOLON
  {
    if s == [] || s[0] == SEMICOLON then [] else [s[0]] + BeforeSemicolon(s[1..])
  }

  function ContentKind(contentType: Bytes, lib: Library): Bytes {
    if contentType == [] then NO_CONTENT_TYPE
    else Truncated(lib.trim(BeforeSemicolon(contentType)), MAX_CONTENT_TYPE_BYTES)
  }

  ghost function SummaryOf(body: Bytes, contentType: Bytes, lib: Library): Bytes {
    if body == [] then []
    else if !Text.Contains(contentType, JSON) then Message(ContentKind(contentType, lib), |body|)
    else
      match lib.decode(body)
      case None => Message(UNPARSABLE, |body|)
      case Some(v) =>
        match lib.encode(Redaction.Redacted(v))
        case None => Message(UNSUMMARIZABLE, |body|)
        case Some(text) => Truncated(text, MAX_SUMMARY_BYTES)
  }

  method Summarize(body: Bytes, contentType: Bytes, lib: Library) returns (r: Bytes)
    ensures r == SummaryOf(body, contentType, lib)
  {
    if |body| == 0 {
      return [];
    }
    var json := Text.Index(contentType, JSON);
    if json.None? {
      var kind := DescribeContentType(contentType, lib);
      return Message(kind, |body|);
    }
    var parsed := lib.decode(body);
    if parsed.None? {
      return Message(UNPARSABLE, |body|);
    }
    var safe := Redaction.RedactValue(parsed.value);
    var encoded := lib.encode(safe);
    if encoded.None? {
      return Message(UNSUMMARIZABLE, |body|);
    }
    r := TruncateTo(encoded.value, MAX_SUMMARY_BYTES);
  }

  method DescribeContentType(contentType: Bytes, lib: Library) returns (kind: Bytes)
    ensures kind == ContentKind(contentType, lib)
  {
    if contentType == [] {
      return NO_CONTENT_TYPE;
    }
    var i := Text.Index(contentType, [SEMICOLON]);
    FirstSemicolon(contentType, i);
    var shown := if i.Some? then contentType[..i.value] else contentType;
    kind := TruncateTo(lib.trim(shown), MAX_CONTENT_TYPE_BYTES);
  }

  lemma FirstSemicolon(s: Bytes, i: Option<nat>)
    requires i.None? ==> !Text.Contains(s, [SEMICOLON])
    requires i.Some? ==>
      Text.OccursAt(s, [SEMICOLON], i.value) && forall j :: Text.OccursAt(s, [SEMICOLON], j) ==> i.value <= j
    ensures BeforeSemicolon(s) == if i.Some? then s[..i.value] else s
  {
    var r := BeforeSemicolon(s);
    if r != s {
      assert Text.OccursAt(s, [SEMICOLON], |r|);
    }
    if i.Some? {
      assert s[i.value..i.value + 1][0] == s[i.value];
      assert forall k | 0 <= k < |r| :: s[k] != SEMICOLON;
    }
  }

  // -------------------------------------------------------- what a summary says

  /** The number that decimal digits denote, the first one counting most. */
  function Number(digits: seq<nat>): nat {
    if digits == [] then 0 else 10 * Number(digits[..|digits| - 1]) + digits[|digits| - 1]
  }

  /** A size is written in digits that denote it, without a zero in front. */
  lemma {:induction false} DecimalDenotes(n: nat) returns (digits: seq<nat>)
    ensures |digits| == |Decimal(n)| && Number(digits) == n && (n > 0 ==> digits[0] > 0)
    ensures forall i | 0 <= i < |digits| :: digits[i] < 10 && Decimal(n)[i] == DIGITS[digits[i]]
  {
    var digit := LastDigit(n);
    if n < 10 {
      digits := [n];
      assert digits[..0] == [];
    } else {
      var tens := DecimalDenotes(n / 10);
      digits := tens + [digit];
      assert digits[..|digits| - 1] == tens;
      assert forall i | 0 <= i < |tens| :: Decimal(n)[i] == Decimal(n)[..|Decimal(n)| - 1][i] == Decimal(n / 10)[i];
    }
  }

  /** Case by case: no body, nothing; no JSON, the kind of content and the size; JSON that
      cannot be read or written again, that and the size; and otherwise the encoded
      redaction, whole if it fits and cut off if not. */
  lemma SummarySays(body: Bytes, contentType: Bytes, lib: Library)
    ensures
      var r := SummaryOf(body, contentType, lib);
      if |body| == 0 then r == []
      else if !Text.Contains(contentType, JSON) then
        && (contentType == [] ==> r == Message(NO_CONTENT_TYPE, |body|))
        && (contentType != [] ==> exists kind ::
              CutOff(lib.trim(BeforeSemicolon(contentType)), 64, kind) && r == Message(kind, |body|))
      else if lib.decode(body).None? then r == Message(UNPARSABLE, |body|)
      else
        var encoded := lib.encode(Redaction.Redacted(lib.decode(body).value));
        if encoded.None? then r == Message(UNSUMMARIZABLE, |body|) else CutOff(encoded.value, 2048, r)
  {
    TruncatedIsCutOff(lib.trim(BeforeSemicolon(contentType)), MAX_CONTENT_TYPE_BYTES);
    if lib.decode(body).Some? && lib.encode(Redaction.Redacted(lib.decode(body).value)).Some? {
      TruncatedIsCutOff(lib.encode(Redaction.Redacted(lib.decode(body).value)).value, MAX_SUMMARY_BYTES);
    }
  }

  // --------------------------------------------- what a summary can depend on

  lemma {:induction false} DecimalInjective(m: nat, n: nat)
    requires Decimal(m) == Decimal(n)
    ensures m == n
  {
    var i := LastDigit(m);
    var j := LastDigit(n);
    DigitsDiffer(i, j);
    if m >= 10 && n >= 10 {
      DecimalInjective(m / 10, n / 10);
    }
  }

  /** A number of one digit is that digit; a longer one has its last digit behind the
      number of its tens. */
  lemma LastDigit(n: nat) returns (digit: nat)
    ensures digit < 10 && Decimal(n)[|Decimal(n)| - 1] == DIGITS[digit]
    ensures n == 10 * (n / 10) + digit
    ensures if n < 10 then |Decimal(n)| == 1 else |Decimal(n)| > 1 && Decimal(n)[..|Decimal(n)| - 1] == Decimal(n / 10)
  {
    digit := n % 10;
  }

  lemma DigitsDiffer(i: nat, j: nat)
    requires i < 10 && j < 10 && DIGITS[i] == DIGITS[j]
    ensures i == j
  {
  }

  lemma MessageTellsSize(kind: Bytes, m: nat, n: nat)
    ensures Message(kind, m) == Message(kind, n) <==> m == n
  {
    if Message(kind, m) == Message(kind, n) {
      var start := |OPENING + kind + COMMA|;
      var a, b := Message(kind, m), Message(kind, n);
      assert |a| == |b| && a[start..|a| - |CLOSING|] == Decimal(m) && b[start..|b| - |CLOSING|] == Decimal(n);
      DecimalInjective(m, n);
    }
  }

  /** No secret reaches the log: two bodies that agree outside their sensitive fields
      have the same summary, except for the size reported when encoding fails. */
  lemma SecretsStayOut(body: Bytes, other: Bytes, contentType: Bytes, lib: Library)
    requires body != [] && other != [] && Text.Contains(contentType, JSON)
    requires lib.decode(body).Some? && lib.decode(other).Some?
    requires Redaction.AgreeInPublic(lib.decode(body).value, lib.decode(other).value)
    ensures
      SummaryOf(body, contentType, lib) == SummaryOf(other, contentType, lib) <==>
      lib.encode(Redaction.Redacted(lib.decode(body).value)).Some? || |body| == |other|
  {
    Redaction.RedactedSameIff(lib.decode(body).value, lib.decode(other).value);
    MessageTellsSize(UNSUMMARIZABLE, |body|, |other|);
  }

  // ------------------------------------------------------- how long it can be

  function Pow10(k: nat): nat {
    if k == 0 then 1 else 10 * Pow10(k - 1)
  }

  lemma {:induction false} DecimalIsShort(n: nat, k: nat)
    requires k > 0 && n < Pow10(k)
    ensures |Decimal(n)| <= k
  {
    if n < 10 {
    } else {
      DecimalIsShort(n / 10, k - 1);
    }
  }

  lemma TenToThe19()
    ensures Pow10(19) == 10_000_000_000_000_000_000
  {
    assert Pow10(5) == 100_000;
    assert Pow10(10) == 100_000 * Pow10(5);
    assert Pow10(15) == 100_000 * Pow10(10);
    assert Pow10(19) == 10_000 * Pow10(15);
  }

  lemma {:induction false} DecimalIsText(n: nat)
    ensures forall i | 0 <= i < |Decimal(n)| :: Decimal(n)[i] <= 0x7F
  {
    assert forall d | 0 <= d < 10 :: DIGITS[d] <= 0x7F;
    if n >= 10 {
      DecimalIsText(n / 10);
    }
  }

  lemma MessageIsText(kind: Bytes, size: nat)
    requires ValidUtf8(kind)
    ensures ValidUtf8(Message(kind, size))
  {
    DecimalIsText(size);
    ValidAscii(OPENING);
    ValidAscii(COMMA);
    ValidAscii(Decimal(size));
    ValidAscii(CLOSING);
    ValidAppend(OPENING, kind);
    ValidAppend(OPENING + kind, COMMA);
    ValidAppend(OPENING + kind + COMMA, Decimal(size));
    ValidAppend(OPENING + kind + COMMA + Decimal(size), CLOSING);
  }

  lemma MessageIsShort(kind: Bytes, size: nat)
    requires size < 0x8000_0000_0000_0000
    ensures |Message(kind, size)| <= |kind| + 29
  {
    TenToThe19();
    DecimalIsShort(size, 19);
  }

  /** The encoder and the trimming of headers give text. */
  ghost predicate GivesText(lib: Library) {
    && (forall v | lib.encode(v).Some? :: ValidUtf8(lib.encode(v).value))
    && (forall h :: ValidUtf8(lib.trim(h)))
  }

  lemma ContentKindIsText(contentType: Bytes, lib: Library)
    requires GivesText(lib)
    ensures ValidUtf8(ContentKind(contentType, lib))
  {
    if contentType == [] {
      ValidAscii(NO_CONTENT_TYPE);
    } else {
      TruncatedIsText(lib.trim(BeforeSemicolon(contentType)), MAX_CONTENT_TYPE_BYTES);
    }
  }

  /** Whatever the request, the log keeps at most 2048 + 14 bytes of it, and what stands
      there instead of a body at most 64 + 14 + 29. */
  lemma SummariesAreBounded(body: Bytes, contentType: Bytes, lib: Library)
    requires |body| < 0x8000_0000_0000_0000
    ensures |SummaryOf(body, contentType, lib)| <= MAX_SUMMARY_BYTES + 14
    ensures !Text.Contains(contentType, JSON) ==>
      |SummaryOf(body, contentType, lib)| <= MAX_CONTENT_TYPE_BYTES + 14 + 29
  {
    if body != [] {
      if !Text.Contains(contentType, JSON) {
        var kind := ContentKind(contentType, lib);
        MessageIsShort(kind, |body|);
        TruncatedIsShort(lib.trim(BeforeSemicolon(contentType)), MAX_CONTENT_TYPE_BYTES);
        assert |kind| <= MAX_CONTENT_TYPE_BYTES + 14;
      } else if lib.decode(body).None? {
        MessageIsShort(UNPARSABLE, |body|);
      } else if lib.encode(Redaction.Redacted(lib.decode(body).value)).None? {
        MessageIsShort(UNSUMMARIZABLE, |body|);
      } else {
        TruncatedIsShort(lib.encode(Redaction.Redacted(lib.decode(body).value)).value, MAX_SUMMARY_BYTES);
      }
    }
  }

  lemma TruncatedIsShort(s: Bytes, n: nat)
    ensures |Truncated(s, n)| <= n + 14
  {
    SuffixIsText();
  }

  /** And all of it is text if the library's results are. */
  lemma SummariesAreText(body: Bytes, contentType: Bytes, lib: Library)
    requires GivesText(lib)
    ensures ValidUtf8(SummaryOf(body, contentType, lib))
  {
    if body != [] {
      if !Text.Contains(contentType, JSON) {
        ContentKindIsText(contentType, lib);
        MessageIsText(ContentKind(contentType, lib), |body|);
      } else {
        JsonSummaryIsText(body, contentType, lib);
      }
    }
  }

  lemma JsonSummaryIsText(body: Bytes, contentType: Bytes, lib: Library)
    requires GivesText(lib) && body != [] && Text.Contains(contentType, JSON)
    ensures ValidUtf8(SummaryOf(body, contentType, lib))
  {
    if lib.decode(body).None? {
      ValidAscii(UNPARSABLE);
      MessageIsText(UNPARSABLE, |body|);
    } else if lib.encode(Redaction.Redacted(lib.decode(body).value)).None? {
      ValidAscii(UNSUMMARIZABLE);
      MessageIsText(UNSUMMARIZABLE, |body|);
    } else {
      TruncatedIsText(lib.encode(Redaction.Redacted(lib.decode(body).value)).value, MAX_SUMMARY_BYTES);
    }
  }
}
