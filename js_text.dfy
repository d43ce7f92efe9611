/**
  JavaScript string semantics shared by every page of the front end.

  A JavaScript string is a sequence of UTF-16 code units, and the regular
  expressions the pages use (no `u` flag), `trim` and `String.fromCharCode`
  all work on code units. The model therefore represents a JS string as a
  sequence of integers in [0, 0xFFFF] rather than as a Dafny `string`, whose
  characters cannot be lone surrogates.
 */
module JsText {

  /** One UTF-16 code unit. */
  type CodeUnit = x: int | 0 <= x < 0x1_0000

  /** A JavaScript string value. */
  type JsString = seq<CodeUnit>

  /** `undefined`/`null` versus a present value, as read from a JSON field. */
  datatype Option<+T> = None | Some(value: T)

  /** The field is present and JavaScript treats its value as true. */
  predicate Truthy<T>(field: Option<T>, truthy: T -> bool) {
    field.Some? && truthy(field.value)
  }

  /** `a || b || … || fallback` over fields that may be absent: the first
      present value that `truthy` accepts, otherwise `fallback`. */
  function FirstTruthy<T>(fields: seq<Option<T>>, truthy: T -> bool, fallback: T): (r: T)
    ensures forall i | 0 <= i < |fields| && Truthy(fields[i], truthy) &&
                       (forall j | 0 <= j < i :: !Truthy(fields[j], truthy)) :: r == fields[i].value
    ensures (forall i | 0 <= i < |fields| :: !Truthy(fields[i], truthy)) ==> r == fallback
  {
    if fields == [] then fallback
    else if Truthy(fields[0], truthy) then fields[0].value
    else FirstTruthy(fields[1..], truthy, fallback)
  }

  /** A string is truthy when it is not empty. */
  predicate NonEmpty(s: JsString) {
    s != []
  }

  /** How an awaited `fetch` + `response.json()` ends: with the decoded body,
      or with the `message` of the error that the page's `catch` receives
      (including the `HTTP error! status: …` error thrown for a non-2xx reply). */
  datatype FetchOutcome<+T> = Received(data: T) | Failed(message: JsString)

  /** The code units of a string literal of the source. Every literal the
      pages use lies in the Basic Multilingual Plane, where one character is
      one UTF-16 code unit; a character outside it (which would need a
      surrogate pair) is not needed and becomes U+FFFD here. */
  function Lit(s: string): (r: JsString)
    ensures |r| == |s|
  {
    seq(|s|, i requires 0 <= i < |s| => if s[i] as int < 0x1_0000 then s[i] as int else 0xFFFD)
  }

  /** ECMAScript LineTerminator: LF, CR, LINE SEPARATOR, PARAGRAPH SEPARATOR.
      These are exactly the code units that the regex `.` does not match. */
  predicate IsLineTerminator(c: CodeUnit) {
    c == 0x0A || c == 0x0D || c == 0x2028 || c == 0x2029
  }

  /** ECMAScript WhiteSpace or LineTerminator: the class `\s`, and the code
      units that `String.prototype.trim` removes. */
  predicate IsWhiteSpace(c: CodeUnit) {
    || c == 0x09 || c == 0x0B || c == 0x0C || c == 0x20 || c == 0xA0
    || c == 0x1680 || (0x2000 <= c <= 0x200A) || c == 0x202F || c == 0x205F
    || c == 0x3000 || c == 0xFEFF
    || IsLineTerminator(c)
  }

  /** The regex class `\d`: ASCII digits only. */
  predicate IsDigit(c: CodeUnit) {
    '0' as int <= c <= '9' as int
  }

  predicate AllWhiteSpace(s: JsString) {
    forall i | 0 <= i < |s| :: IsWhiteSpace(s[i])
  }

  /** How many code units of white space `s` starts with. */
  function LeadingWhiteSpace(s: JsString): (k: nat)
    ensures k <= |s|
    ensures forall i | 0 <= i < k :: IsWhiteSpace(s[i])
    ensures k == |s| || !IsWhiteSpace(s[k])
  {
    if s == [] || !IsWhiteSpace(s[0]) then 0 else 1 + LeadingWhiteSpace(s[1..])
  }

  /** The length of `s` without the white space it ends with. */
  function ContentEnd(s: JsString): (k: nat)
    ensures k <= |s|
    ensures forall i | k <= i < |s| :: IsWhiteSpace(s[i])
    ensures k == 0 || !IsWhiteSpace(s[k - 1])
  {
    if s == [] || !IsWhiteSpace(s[|s| - 1]) then |s| else ContentEnd(s[..|s| - 1])
  }

  /** `s.trimStart()`; also what a greedy `\s*` at the front consumes. */
  function TrimStart(s: JsString): JsString {
    s[LeadingWhiteSpace(s)..]
  }

  /** `s.trimEnd()`. */
  function TrimEnd(s: JsString): JsString {
    s[..ContentEnd(s)]
  }

  /** `s.trim()`. */
  function Trim(s: JsString): (r: JsString)
    ensures |r| <= |s|
  {
    TrimEnd(TrimStart(s))
  }

  /** `trim` leaves the infix of `s` that starts after the leading white space,
      and that infix neither starts nor ends with white space. */
  lemma TrimSpec(s: JsString)
    ensures var a := LeadingWhiteSpace(s); var r := Trim(s);
      a + |r| <= |s| && r == s[a..a + |r|]
    ensures var r := Trim(s);
      r == [] || (!IsWhiteSpace(r[0]) && !IsWhiteSpace(r[|r| - 1]))
  {
    var a := LeadingWhiteSpace(s);
    var t := s[a..];
    var e := ContentEnd(t);
    assert Trim(s) == t[..e] == s[a..a + e];
    if e > 0 {
      assert t[0] == s[a];
    }
  }

  /** What `trim` removes, at either end, is white space. */
  lemma TrimRemovesOnlyWhiteSpace(s: JsString)
    ensures var a := LeadingWhiteSpace(s);
      AllWhiteSpace(s[..a]) && a + |Trim(s)| <= |s| && AllWhiteSpace(s[a + |Trim(s)|..])
  {
    var a := LeadingWhiteSpace(s);
    var t := s[a..];
    var e := ContentEnd(t);
    assert |Trim(s)| == e;
    var front, back := s[..a], s[a + e..];
    forall i | 0 <= i < |front| ensures IsWhiteSpace(front[i]) {
      assert front[i] == s[i];
    }
    forall i | 0 <= i < |back| ensures IsWhiteSpace(back[i]) {
      assert back[i] == t[e + i];
    }
  }

  /** `!s.trim()`: the string is empty after trimming (JS treats "" as false). */
  predicate IsBlank(s: JsString) {
    Trim(s) == []
  }

  /** A string is blank exactly when it consists of white space only. */
  lemma BlankIffAllWhiteSpace(s: JsString)
    ensures IsBlank(s) <==> AllWhiteSpace(s)
  {
    var a := LeadingWhiteSpace(s);
    var t := s[a..];
    if IsBlank(s) {
      assert ContentEnd(t) == 0;
      if a < |s| {
        assert false;
      }
    }
  }

  /** Trimming twice is trimming once. */
  lemma TrimIdempotent(s: JsString)
    ensures Trim(Trim(s)) == Trim(s)
  {
    var r := Trim(s);
    TrimSpec(s);
    assert LeadingWhiteSpace(r) == 0;
    assert r[0..] == r;
    assert ContentEnd(r) == |r|;
    assert r[..|r|] == r;
  }

  /** ASCII lower-casing of one code unit. */
  function LowerUnit(c: CodeUnit): CodeUnit {
    if 'A' as int <= c <= 'Z' as int then c + 32 else c
  }

  /** `s.toLowerCase()` restricted to the ASCII letters. For a comparison with an
      all-lower-case ASCII keyword that contains no `k`, this decides equality
      exactly as the full Unicode mapping does. */
  function ToLower(s: JsString): (r: JsString)
    ensures |r| == |s|
    ensures forall i | 0 <= i < |s| ::
      if 'A' as int <= s[i] <= 'Z' as int then r[i] == s[i] + 32 else r[i] == s[i]
    ensures forall i | 0 <= i < |r| :: !('A' as int <= r[i] <= 'Z' as int)
  {
    seq(|s|, i requires 0 <= i < |s| => LowerUnit(s[i]))
  }

  /** `s` equals `keyword` when case is ignored (the `switch (x?.toLowerCase())` idiom). */
  predicate EqualsIgnoringCase(s: JsString, keyword: JsString)
    ensures EqualsIgnoringCase(s, keyword) ==> |s| == |keyword|
  {
    ToLower(s) == keyword
  }

  /** Two strings that differ only in ASCII case look the same to a lower-cased switch. */
  lemma CaseOnlyDifference(s: JsString, t: JsString, keyword: JsString)
    requires |s| == |t|
    requires forall i | 0 <= i < |s| :: LowerUnit(s[i]) == LowerUnit(t[i])
    ensures EqualsIgnoringCase(s, keyword) <==> EqualsIgnoringCase(t, keyword)
  {
    assert ToLower(s) == ToLower(t);
  }
}
