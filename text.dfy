/** Text handling of the scraper: the file-name sanitisation of main.js,
    JavaScript's `String.prototype.trim` used by dongman.js, and the decimal
    rendering of the episode number in a video file name. */
module Text {

  // ---------------------------------------------------------------------
  // Sanitisation (main.js:113-116, 181-184)
  // ---------------------------------------------------------------------

  /** The characters matched by the class `[\/:*?"<>|]`. The backslash is
      not among them: `\/` in the regular expression is an escaped slash. */
  predicate IsUnsafe(c: char) {
    c == '/' || c == ':' || c == '*' || c == '?' || c == '"' || c == '<' || c == '>' || c == '|'
  }

  predicate IsSafe(s: string) {
    forall i :: 0 <= i < |s| ==> !IsUnsafe(s[i])
  }

  /** `title.replace(/[\/:*?"<>|]/g, "_")`: every unsafe character becomes an
      underscore, every other character stays where it is. */
  function Sanitise(title: string): (r: string)
    ensures |r| == |title|
    ensures IsSafe(r)
    ensures forall i :: 0 <= i < |title| && IsUnsafe(title[i]) ==> r[i] == '_'
    ensures forall i :: 0 <= i < |title| && !IsUnsafe(title[i]) ==> r[i] == title[i]
  {
    if title == [] then []
    else [if IsUnsafe(title[0]) then '_' else title[0]] + Sanitise(title[1..])
  }

  /** Sanitising twice is sanitising once. */
  lemma SanitiseIdempotent(title: string)
    ensures Sanitise(Sanitise(title)) == Sanitise(title)
  {
    SanitiseKeepsSafe(Sanitise(title));
  }

  /** A title without unsafe characters is left as it is. */
  lemma SanitiseKeepsSafe(title: string)
    requires IsSafe(title)
    ensures Sanitise(title) == title
  {
    assert forall i :: 0 <= i < |title| ==> Sanitise(title)[i] == title[i];
  }

  lemma SafeConcat(a: string, b: string)
    requires IsSafe(a) && IsSafe(b)
    ensures IsSafe(a + b)
  {
    assert forall i :: |a| <= i < |a + b| ==> (a + b)[i] == b[i - |a|];
  }

  // ---------------------------------------------------------------------
  // Decimal rendering of a natural number (`${i + 1}` in main.js:184)
  // ---------------------------------------------------------------------

  predicate IsDigit(c: char) {
    '0' <= c <= '9'
  }

  function DigitChar(d: nat): (c: char)
    requires d < 10
    ensures IsDigit(c)
  {
    "0123456789"[d]
  }

  function DigitValue(c: char): (d: nat)
    requires IsDigit(c)
    ensures d < 10
  {
    (c as int - '0' as int) as nat
  }

  /** The decimal digits of `n`, most significant first, as a template literal
      renders a non-negative integer. */
  function Decimal(n: nat): (s: string)
    ensures |s| > 0
    ensures forall i :: 0 <= i < |s| ==> IsDigit(s[i])
  {
    if n < 10 then [DigitChar(n)] else Decimal(n / 10) + [DigitChar(n % 10)]
  }

  /** Reads a string of decimal digits back as a number. */
  function ParseDecimal(s: string): nat
    requires forall i :: 0 <= i < |s| ==> IsDigit(s[i])
  {
    if s == [] then 0 else 10 * ParseDecimal(s[..|s| - 1]) + DigitValue(s[|s| - 1])
  }

  /** Reading back the rendering of a number gives the number. */
  lemma {:induction false} DecimalRoundTrip(n: nat)
    ensures ParseDecimal(Decimal(n)) == n
  {
    if n >= 10 {
      var s := Decimal(n);
      assert s[..|s| - 1] == Decimal(n / 10);
      DecimalRoundTrip(n / 10);
    }
  }

  /** Different numbers are rendered differently. */
  lemma DecimalInjective(m: nat, n: nat)
    requires Decimal(m) == Decimal(n)
    ensures m == n
  {
    DecimalRoundTrip(m);
    DecimalRoundTrip(n);
  }

  lemma DecimalIsSafe(n: nat)
    ensures IsSafe(Decimal(n))
  {
  }

  // ---------------------------------------------------------------------
  // File names (main.js:113-116, 181-184)
  // ---------------------------------------------------------------------

  const ImageSuffix: string := ".jpg"
  const EpisodeMark: string := " 第"
  const VideoSuffix: string := "集.mp4"

  /** The thumbnail file name: the sanitised title with `.jpg` appended. */
  function ImageFileName(title: string): (name: string)
    ensures IsSafe(name)
    ensures |name| == |title| + |ImageSuffix|
    ensures name[..|title|] == Sanitise(title)
    ensures name[|title|..] == ImageSuffix
  {
    var s := Sanitise(title);
    SafeConcat(s, ImageSuffix);
    s + ImageSuffix
  }

  /** The video file name `<sanitised title> 第<position + 1>集.mp4`; the
      number is the item's position inside its worker's chunk, counted from 1,
      not its discovery index. */
  function VideoFileName(title: string, position: nat): (name: string)
    ensures IsSafe(name)
    ensures |name| == |title| + |EpisodeMark| + |Decimal(position + 1)| + |VideoSuffix|
    ensures name[..|title|] == Sanitise(title)
    ensures name[|title|..|title| + |EpisodeMark|] == EpisodeMark
    ensures name[|name| - |VideoSuffix|..] == VideoSuffix
    ensures name[|title| + |EpisodeMark|..|name| - |VideoSuffix|] == Decimal(position + 1)
  {
    var s := Sanitise(title);
    var d := Decimal(position + 1);
    DecimalIsSafe(position + 1);
    SafeConcat(s, EpisodeMark);
    SafeConcat(s + EpisodeMark, d);
    SafeConcat(s + EpisodeMark + d, VideoSuffix);
    s + EpisodeMark + d + VideoSuffix
  }

  /** Two positions of the same title never share a video file name. */
  lemma VideoFileNamesDistinct(title: string, i: nat, j: nat)
    requires i != j
    ensures VideoFileName(title, i) != VideoFileName(title, j)
  {
    if VideoFileName(title, i) == VideoFileName(title, j) {
      DecimalInjective(i + 1, j + 1);
    }
  }

  // ---------------------------------------------------------------------
  // String.prototype.trim (dongman.js:34)
  // ---------------------------------------------------------------------

  /** The characters `trim` removes: ECMAScript's WhiteSpace (tab, vertical
      tab, form feed, the byte order mark and every space separator) and
      LineTerminator (LF, CR, U+2028, U+2029). */
  predicate IsJsWhitespace(c: char) {
    c == '\U{9}' || c == '\U{A}' || c == '\U{B}' || c == '\U{C}' || c == '\U{D}'
    || c == '\U{20}' || c == '\U{A0}' || c == '\U{1680}'
    || ('\U{2000}' <= c <= '\U{200A}')
    || c == '\U{2028}' || c == '\U{2029}' || c == '\U{202F}' || c == '\U{205F}'
    || c == '\U{3000}' || c == '\U{FEFF}'
  }

  predicate AllWhitespace(s: string) {
    forall i :: 0 <= i < |s| ==> IsJsWhitespace(s[i])
  }

  /** The number of whitespace characters at the start of `s`. */
  function Leading(s: string): (n: nat)
    ensures n <= |s|
    ensures AllWhitespace(s[..n])
    ensures n < |s| ==> !IsJsWhitespace(s[n])
  {
    if s == [] || !IsJsWhitespace(s[0]) then 0 else 1 + Leading(s[1..])
  }

  /** The number of whitespace characters at the end of `s`. */
  function Trailing(s: string): (n: nat)
    ensures n <= |s|
    ensures forall i :: |s| - n <= i < |s| ==> IsJsWhitespace(s[i])
    ensures n < |s| ==> !IsJsWhitespace(s[|s| - n - 1])
  {
    if s == [] || !IsJsWhitespace(s[|s| - 1]) then 0 else 1 + Trailing(s[..|s| - 1])
  }

  /** `s.trim()`: `s` without its leading and trailing whitespace; what is
      removed on either side is whitespace only. */
  function Trim(s: string): (r: string)
    ensures Leading(s) + |r| <= |s|
    ensures r == s[Leading(s)..Leading(s) + |r|]
    ensures AllWhitespace(s[..Leading(s)]) && AllWhitespace(s[Leading(s) + |r|..])
    ensures r != [] ==> !IsJsWhitespace(r[0]) && !IsJsWhitespace(r[|r| - 1])
  {
    var n := Leading(s);
    var t := s[n..];
    var m := Trailing(t);
    var r := t[..|t| - m];
    assert r != [] ==> r[0] == t[0] && r[|r| - 1] == t[|t| - m - 1];
    r
  }

  /** Trimming twice is trimming once. */
  lemma TrimIdempotent(s: string)
    ensures Trim(Trim(s)) == Trim(s)
  {
    var r := Trim(s);
    assert Leading(r) == 0;
    if r != [] {
      assert Trailing(r) == 0;
    }
  }

  /** Trimming removes nothing from a string that neither starts nor ends
      with whitespace, and everything from one made only of whitespace. */
  lemma TrimCases(s: string)
    ensures s != [] && !IsJsWhitespace(s[0]) && !IsJsWhitespace(s[|s| - 1]) ==> Trim(s) == s
    ensures AllWhitespace(s) ==> Trim(s) == []
  {
  }

}
