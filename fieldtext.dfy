/** The field helpers shared by the three listing parsers (scripts/parsers.py,
    "HERRAMIENTAS"): whitespace cleaning, digit extraction, the foreign-currency
    test and the room-count extraction from free text.  Python's `None` and `""`
    are both falsy and every helper treats them alike, so both are `""` here. */
module FieldText {
  import opened Text

  // ---------------------------------------------------------------- clean_text

  /** `text.replace('\n', ' ').replace('\r', '')`: a line feed becomes a space,
      a carriage return disappears (so "a\rb" gives "ab", not "a b"). */
  function UnbreakLines(text: string): string {
    DropChar(ReplaceChar(text, '\n', ' '), '\r')
  }

  /** `clean_text`: the words of the unbroken text joined by single spaces. */
  function CleanText(text: string): (r: string)
  {
    Join(Words(UnbreakLines(text)), " ")
  }

  /** The cleaned text has the words of the unbroken text, separated by lone
      spaces with none at either end; an empty text stays empty. */
  lemma CleanTextShape(text: string)
    ensures Normalized(CleanText(text))
    ensures Words(CleanText(text)) == Words(UnbreakLines(text))
    ensures text == "" ==> CleanText(text) == ""
  {
    var ws := Words(UnbreakLines(text));
    WordsAreWords(UnbreakLines(text));
    JoinWordsNormalized(ws);
    WordsOfJoin(ws);
  }

  lemma {:induction false} NoBreaksUnchanged(t: string)
    requires forall i | 0 <= i < |t| :: t[i] != '\n' && t[i] != '\r'
    ensures UnbreakLines(t) == t
  {
    assert ReplaceChar(t, '\n', ' ') == t;
    DropAbsent(t, '\r');
  }

  /** A cleaned text is left as it is by `clean_text`: the texts `clean_text`
      returns are exactly the normalized ones. */
  lemma CleanTextFixesNormalized(t: string)
    requires Normalized(t)
    ensures CleanText(t) == t
  {
    NoBreaksUnchanged(t);
    JoinWordsOfNormalized(t);
  }

  /** `clean_text` is idempotent. */
  lemma CleanTextIdempotent(text: string)
    ensures CleanText(CleanText(text)) == CleanText(text)
  {
    CleanTextShape(text);
    CleanTextFixesNormalized(CleanText(text));
  }

  // ---------------------------------------------------------------- force_int

  /** `re.sub(r'[^\d]', '', s)`: the digit characters of `s`, in order. */
  function DigitsOf(s: string): (r: string)
    ensures AllDigits(r) && |r| <= |s|
    ensures AllDigits(s) ==> r == s
  {
    if s == [] then []
    else (if IsDigit(s[0]) then [s[0]] else []) + DigitsOf(s[1..])
  }

  /** Keeping the digits of a concatenation keeps the digits of each part. */
  lemma {:induction false} DigitsOfAppend(a: string, b: string)
    ensures DigitsOf(a + b) == DigitsOf(a) + DigitsOf(b)
  {
    if a == [] {
      assert a + b == b;
    } else {
      var head := if IsDigit(a[0]) then [a[0]] else [];
      assert (a + b)[0] == a[0] && (a + b)[1..] == a[1..] + b;
      assert DigitsOf(a + b) == head + DigitsOf(a[1..] + b);
      DigitsOfAppend(a[1..], b);
      assert DigitsOf(a) == head + DigitsOf(a[1..]);
    }
  }

  lemma {:induction false} DigitsOfDrop(s: string, c: char)
    requires !IsDigit(c)
    ensures DigitsOf(DropChar(s, c)) == DigitsOf(s)
  {
    if s != [] {
      DigitsOfDrop(s[1..], c);
      DigitsOfAppend(if s[0] == c then [] else [s[0]], DropChar(s[1..], c));
    }
  }

  /** `force_int`: "" for an empty text, "0" for a "brand new" text (any casing
      of "estrenar"), otherwise exactly the digits of the text, in order (the
      thousands separators '.' and ',' it removes first are not digits anyway). */
  function ForceInt(text: string): (r: string)
    ensures AllDigits(r)
    ensures text == "" ==> r == ""
    ensures text != "" && Contains(Lower(text), "estrenar") ==> r == "0"
    ensures text != "" && !Contains(Lower(text), "estrenar") ==> r == DigitsOf(text)
  {
    if text == "" then ""
    else if Contains(Lower(text), "estrenar") then "0"
    else
      DigitsOfDrop(text, '.');
      DigitsOfDrop(DropChar(text, '.'), ',');
      DigitsOf(DropChar(DropChar(text, '.'), ','))
  }

  // ---------------------------------------------------------------- is_usd

  predicate HasCurrencyMarker(upper: string) {
    Contains(upper, "USD") || Contains(upper, "U$S") || Contains(upper, "DOLARES")
    || Contains(upper, "US$")
  }

  /** `is_usd`: a non-empty text whose upper-cased form carries a dollar marker. */
  predicate IsUsd(text: string) {
    text != "" && HasCurrencyMarker(Upper(text))
  }

  /** A price text with a dollar marker keeps it whatever surrounds it. */
  lemma IsUsdExtend(a: string, text: string, b: string)
    requires IsUsd(text)
    ensures IsUsd(a + text + b)
  {
    UpperAppend(a, text);
    UpperAppend(a + text, b);
    var u := Upper(text);
    if Contains(u, "USD") { ContainsExtend(Upper(a), u, Upper(b), "USD"); }
    else if Contains(u, "U$S") { ContainsExtend(Upper(a), u, Upper(b), "U$S"); }
    else if Contains(u, "DOLARES") { ContainsExtend(Upper(a), u, Upper(b), "DOLARES"); }
    else { ContainsExtend(Upper(a), u, Upper(b), "US$"); }
  }

  /** The currency test ignores letter case. */
  lemma IsUsdIgnoresCase(text: string)
    ensures IsUsd(Lower(text)) == IsUsd(text)
  {
    assert Upper(Lower(text)) == Upper(text);
  }

  // ---------------------------------------------------------------- extract_ambientes_regex

  /** The end of the run of digits that starts at position `i`. */
  function DigitEnd(s: string, i: nat): (e: nat)
    requires i <= |s|
    ensures i <= e <= |s| && (e < |s| ==> !IsDigit(s[e]))
    decreases |s| - i
  {
    if i < |s| && IsDigit(s[i]) then DigitEnd(s, i + 1) else i
  }

  /** Every character of the run is a digit. */
  lemma {:induction false} DigitEndRun(s: string, i: nat)
    requires i <= |s|
    ensures forall k | i <= k < DigitEnd(s, i) :: IsDigit(s[k])
    decreases |s| - i
  {
    if i < |s| && IsDigit(s[i]) {
      DigitEndRun(s, i + 1);
    }
  }

  /** The end of the run of whitespace that starts at position `j`. */
  function SpaceEnd(s: string, j: nat): (e: nat)
    requires j <= |s|
    ensures j <= e <= |s| && (e < |s| ==> !IsSpace(s[e]))
    decreases |s| - j
  {
    if j < |s| && IsSpace(s[j]) then SpaceEnd(s, j + 1) else j
  }

  /** The regex `(\d+)\s*amb` (ignoring case) matches starting at position `i`.
      Backtracking cannot help it: a shorter digit run is followed by a digit and
      a shorter space run by a space, neither of which is an `a`, so the greedy
      reading below is the only candidate. */
  predicate AmbMatchAt(s: string, i: int) {
    0 <= i < |s| && IsDigit(s[i]) && AmbAfterDigits(s, DigitEnd(s, i))
  }

  /** `\s*amb` (ignoring case) matches at position `j`. */
  predicate AmbAfterDigits(s: string, j: nat)
    requires j <= |s|
  {
    var k := SpaceEnd(s, j);
    k + 3 <= |s| && LowerChar(s[k]) == 'a' && LowerChar(s[k + 1]) == 'm' && LowerChar(s[k + 2]) == 'b'
  }

  /** What group 1 captures for a match starting at `i`: its digit run. */
  function AmbGroup(s: string, i: nat): (g: string)
    requires i < |s| && IsDigit(s[i])
    ensures |g| > 0 && AllDigits(g)
  {
    DigitEndRun(s, i);
    s[i..DigitEnd(s, i)]
  }

  /** `re.search` from position `from`: the leftmost start of a match. */
  function FirstAmbMatch(s: string, from: nat): (r: Option<nat>)
    ensures r.Some? ==> from <= r.value < |s| && IsDigit(s[r.value])
    decreases |s| - from
  {
    if from >= |s| then None
    else if AmbMatchAt(s, from) then Some(from)
    else FirstAmbMatch(s, from + 1)
  }

  /** The search finds a match, and none before it; or finds nothing when
      there is no match from `from` on. */
  lemma {:induction false} FirstAmbMatchSpec(s: string, from: nat)
    ensures FirstAmbMatch(s, from).Some? ==> AmbMatchAt(s, FirstAmbMatch(s, from).value)
    ensures FirstAmbMatch(s, from).Some? ==>
      forall k | from <= k < FirstAmbMatch(s, from).value :: !AmbMatchAt(s, k)
    ensures FirstAmbMatch(s, from).None? ==> forall k | from <= k :: !AmbMatchAt(s, k)
    decreases |s| - from
  {
    if from < |s| && !AmbMatchAt(s, from) {
      FirstAmbMatchSpec(s, from + 1);
    }
  }

  /** The second tier: Spanish number words before "amb", tried in this order. */
  function WordTier(low: string): (r: string)
    ensures r in {"", "2", "3", "4"}
  {
    if Contains(low, "dos amb") then "2"
    else if Contains(low, "tres amb") then "3"
    else if Contains(low, "cuatro amb") then "4"
    else ""
  }

  /** `extract_ambientes_regex`: "" or a number written in digits. */
  function ExtractAmbientes(text: string): (r: string)
    ensures r == "" || AllDigits(r)
    ensures text == "" ==> r == ""
  {
    if text == "" then ""
    else match FirstAmbMatch(text, 0)
      case Some(i) => AmbGroup(text, i)
      case None => WordTier(Lower(text))
  }

  /** The extracted room count is the digits of the leftmost "<digits> amb"
      match; only when there is none, the number-word tier applies. */
  lemma ExtractAmbientesSpec(text: string)
    ensures (exists i :: AmbMatchAt(text, i)) ==>
      exists i :: AmbMatchAt(text, i) && ExtractAmbientes(text) == AmbGroup(text, i)
        && forall k | 0 <= k < i :: !AmbMatchAt(text, k)
    ensures (forall i :: !AmbMatchAt(text, i)) ==> ExtractAmbientes(text) == WordTier(Lower(text))
  {
    FirstAmbMatchSpec(text, 0);
    match FirstAmbMatch(text, 0)
    case Some(i) =>
    case None =>
  }

  /** A digit just before a match start extends the match to the left: the
      digit run, and so the rest of the match, is shared. */
  lemma MatchExtendsLeft(s: string, i: nat)
    requires 0 < i && AmbMatchAt(s, i) && IsDigit(s[i - 1])
    ensures AmbMatchAt(s, i - 1) && DigitEnd(s, i - 1) == DigitEnd(s, i)
  {
  }

  /** The leftmost match starts a whole run of digits, so the extracted number
      is never the tail of a longer number. */
  lemma LeftmostMatchIsWholeRun(s: string, i: nat)
    requires AmbMatchAt(s, i) && forall k | 0 <= k < i :: !AmbMatchAt(s, k)
    ensures i == 0 || !IsDigit(s[i - 1])
  {
    if i > 0 && IsDigit(s[i - 1]) {
      MatchExtendsLeft(s, i);
    }
  }
}
