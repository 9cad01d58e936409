/** Python string built-ins that the scraper and the KML reader rely on:
    `str.isspace`, ASCII digits, `lower`/`upper`, `in`, `split()`, `split(sep)`,
    `" ".join`, `strip`, `replace(x, "")` and integer formatting/parsing. */
module Text {

  datatype Option<+T> = None | Some(value: T)

  // ---------------------------------------------------------------- characters

  /** The characters for which Python's `str.isspace()` is true; these are also
      the separators of `str.split()` and what `\s` matches in a `str` regex. */
  predicate IsSpace(c: char) {
    || c == ' ' || c == '\t' || c == '\n' || c == '\r' || c == '\U{0B}' || c == '\U{0C}'
    || ('\U{1C}' <= c <= '\U{1F}') || c == '\U{85}' || c == '\U{A0}' || c == '\U{1680}'
    || ('\U{2000}' <= c <= '\U{200A}') || c == '\U{2028}' || c == '\U{2029}'
    || c == '\U{202F}' || c == '\U{205F}' || c == '\U{3000}'
  }

  /** An ASCII decimal digit (the model's reading of `\d` and `isdigit`). */
  predicate IsDigit(c: char) { '0' <= c <= '9' }

  predicate AllDigits(s: string) { forall i | 0 <= i < |s| :: IsDigit(s[i]) }

  predicate HasDigit(s: string) { exists i | 0 <= i < |s| :: IsDigit(s[i]) }

  /** `str.lower()` on one character, for ASCII letters and Ñ. */
  function LowerChar(c: char): char {
    if 'A' <= c <= 'Z' then (c as int + 32) as char
    else if c == 'Ñ' then 'ñ'
    else c
  }

  /** `str.upper()` on one character, for ASCII letters and ñ. */
  function UpperChar(c: char): char {
    if 'a' <= c <= 'z' then (c as int - 32) as char
    else if c == 'ñ' then 'Ñ'
    else c
  }

  function Lower(s: string): (r: string)
    ensures |r| == |s| && forall i | 0 <= i < |s| :: r[i] == LowerChar(s[i])
  {
    seq(|s|, i requires 0 <= i < |s| => LowerChar(s[i]))
  }

  function Upper(s: string): (r: string)
    ensures |r| == |s| && forall i | 0 <= i < |s| :: r[i] == UpperChar(s[i])
  {
    seq(|s|, i requires 0 <= i < |s| => UpperChar(s[i]))
  }

  lemma LowerAppend(a: string, b: string)
    ensures Lower(a + b) == Lower(a) + Lower(b)
  {
    assert forall i | 0 <= i < |a + b| :: Lower(a + b)[i] == (Lower(a) + Lower(b))[i];
  }

  lemma UpperAppend(a: string, b: string)
    ensures Upper(a + b) == Upper(a) + Upper(b)
  {
    assert forall i | 0 <= i < |a + b| :: Upper(a + b)[i] == (Upper(a) + Upper(b))[i];
  }

  // ---------------------------------------------------------------- substrings

  predicate OccursAt(s: string, sub: string, i: int) {
    0 <= i && i + |sub| <= |s| && s[i..i + |sub|] == sub
  }

  /** Python's `sub in s`. */
  predicate Contains(s: string, sub: string) {
    exists i | 0 <= i <= |s| - |sub| :: OccursAt(s, sub, i)
  }

  predicate StartsWith(s: string, prefix: string) {
    |prefix| <= |s| && s[..|prefix|] == prefix
  }

  predicate EndsWith(s: string, suffix: string) {
    |suffix| <= |s| && s[|s| - |suffix|..] == suffix
  }

  /** A text that contains `sub` still contains it once more text is put around it. */
  lemma ContainsExtend(a: string, s: string, b: string, sub: string)
    requires Contains(s, sub)
    ensures Contains(a + s + b, sub)
  {
    var i :| 0 <= i <= |s| - |sub| && OccursAt(s, sub, i);
    var t := a + s + b;
    assert t[|a| + i..|a| + i + |sub|] == s[i..i + |sub|];
    assert OccursAt(t, sub, |a| + i);
  }

  /** Containment is transitive. */
  lemma ContainsTrans(s: string, mid: string, sub: string)
    requires Contains(s, mid) && Contains(mid, sub)
    ensures Contains(s, sub)
  {
    var i :| 0 <= i <= |s| - |mid| && OccursAt(s, mid, i);
    var j :| 0 <= j <= |mid| - |sub| && OccursAt(mid, sub, j);
    forall k | 0 <= k < |sub| ensures s[i + j + k] == sub[k] {
      assert s[i + j + k] == s[i..i + |mid|][j + k] == mid[j + k];
      assert mid[j + k] == mid[j..j + |sub|][k];
    }
    assert s[i + j..i + j + |sub|] == sub;
    assert OccursAt(s, sub, i + j);
  }

  lemma ContainsSelf(s: string)
    ensures Contains(s, s)
  {
    assert OccursAt(s, s, 0);
  }

  // ---------------------------------------------------------------- split() and join

  /** Number of leading characters of `s` that are not whitespace. */
  function WordLen(s: string): (n: nat)
    ensures n <= |s|
    ensures forall i | 0 <= i < n :: !IsSpace(s[i])
    ensures n < |s| ==> IsSpace(s[n])
  {
    if s == [] || IsSpace(s[0]) then 0 else 1 + WordLen(s[1..])
  }

  predicate NoSpace(w: string) { forall i | 0 <= i < |w| :: !IsSpace(w[i]) }

  predicate IsWord(w: string) { |w| > 0 && NoSpace(w) }

  /** Python's `s.split()`: the maximal runs of non-whitespace characters, in order. */
  function Words(s: string): (ws: seq<string>)
    ensures |ws| <= |s|
    decreases |s|
  {
    if s == [] then []
    else if IsSpace(s[0]) then Words(s[1..])
    else
      var n := WordLen(s);
      [s[..n]] + Words(s[n..])
  }

  /** Every piece of a split is a non-empty run without whitespace. */
  lemma {:induction false} WordsAreWords(s: string)
    ensures forall k | 0 <= k < |Words(s)| :: IsWord(Words(s)[k])
    decreases |s|
  {
    if s != [] {
      if IsSpace(s[0]) {
        WordsAreWords(s[1..]);
      } else {
        var n := WordLen(s);
        WordsAreWords(s[n..]);
        var ws := Words(s);
        assert ws == [s[..n]] + Words(s[n..]);
        forall k | 0 <= k < |ws| ensures IsWord(ws[k]) {
          if k > 0 {
            assert ws[k] == Words(s[n..])[k - 1];
          }
        }
      }
    }
  }

  /** Python's `sep.join(ws)`. */
  function Join(ws: seq<string>, sep: string): string {
    if |ws| == 0 then ""
    else if |ws| == 1 then ws[0]
    else ws[0] + sep + Join(ws[1..], sep)
  }

  /** Joining splits at any inner boundary: the pieces before it, the
      separator, the pieces after it. */
  lemma {:induction false} JoinSplitAt(ws: seq<string>, sep: string, k: nat)
    requires 0 < k < |ws|
    ensures Join(ws, sep) == Join(ws[..k], sep) + sep + Join(ws[k..], sep)
    decreases k
  {
    if k > 1 {
      JoinSplitAt(ws[1..], sep, k - 1);
      assert ws[1..][..k - 1] == ws[..k][1..];
      assert ws[1..][k - 1..] == ws[k..];
    } else {
      assert ws[1..] == ws[k..];
    }
  }

  /** A join starts with the join of its first pieces and a separator. */
  lemma JoinPrefix(ws: seq<string>, sep: string, k: nat)
    requires 0 < k < |ws|
    ensures StartsWith(Join(ws, sep), Join(ws[..k], sep) + sep)
  {
    JoinSplitAt(ws, sep, k);
  }

  /** A join of several pieces ends with a separator and the last piece. */
  lemma JoinSuffix(ws: seq<string>, sep: string)
    requires |ws| > 1
    ensures EndsWith(Join(ws, sep), sep + ws[|ws| - 1])
  {
    JoinSplitAt(ws, sep, |ws| - 1);
    assert ws[|ws| - 1..] == [ws[|ws| - 1]];
  }

  /** Text put around a string keeps what it starts with behind the text put
      before it, and what it ends with ahead of the text put after it. */
  lemma AffixesExtend(a: string, s: string, b: string, prefix: string, suffix: string)
    ensures StartsWith(s, prefix) ==> StartsWith(a + s + b, a + prefix)
    ensures EndsWith(s, suffix) ==> EndsWith(a + s + b, suffix + b)
  {
    if StartsWith(s, prefix) {
      assert (a + s + b)[..|a + prefix|] == a + s[..|prefix|];
    }
    if EndsWith(s, suffix) {
      assert (a + s + b)[|a + s + b| - |suffix + b|..] == s[|s| - |suffix|..] + b;
    }
  }

  /** A string in which every whitespace character is a single `' '` with a
      non-space character on each side: no leading, trailing or doubled space,
      and no other kind of whitespace. */
  predicate Normalized(t: string) {
    forall i | 0 <= i < |t| && IsSpace(t[i]) ::
      t[i] == ' ' && 0 < i < |t| - 1 && !IsSpace(t[i - 1]) && !IsSpace(t[i + 1])
  }

  lemma {:induction false} JoinWordsNormalized(ws: seq<string>)
    requires forall k | 0 <= k < |ws| :: IsWord(ws[k])
    ensures Normalized(Join(ws, " "))
    ensures |ws| > 0 ==>
      (|Join(ws, " ")| > 0 && !IsSpace(Join(ws, " ")[0]) && !IsSpace(Join(ws, " ")[|Join(ws, " ")| - 1]))
  {
    if |ws| > 1 {
      JoinWordsNormalized(ws[1..]);
      var w, rest := ws[0], Join(ws[1..], " ");
      var t := w + " " + rest;
      assert Join(ws, " ") == t;
      forall i | 0 <= i < |t| && IsSpace(t[i])
        ensures t[i] == ' ' && 0 < i < |t| - 1 && !IsSpace(t[i - 1]) && !IsSpace(t[i + 1])
      {
        if i > |w| {
          assert t[i] == rest[i - |w| - 1];
          if i - 1 > |w| {
            assert t[i - 1] == rest[i - 1 - |w| - 1];
          }
        }
      }
    }
  }

  /** Splitting the `" "`-join of words gives the words back. */
  lemma {:induction false} WordsOfJoin(ws: seq<string>)
    requires forall k | 0 <= k < |ws| :: IsWord(ws[k])
    ensures Words(Join(ws, " ")) == ws
  {
    if |ws| == 0 {
    } else if |ws| == 1 {
      WordsOfWord(ws[0]);
    } else {
      var w, rest := ws[0], Join(ws[1..], " ");
      var t := w + " " + rest;
      assert Join(ws, " ") == t;
      WordLenPrefix(w, " " + rest);
      assert t == w + (" " + rest);
      assert t[..|w|] == w && t[|w|..] == " " + rest;
      assert (" " + rest)[1..] == rest;
      WordsOfJoin(ws[1..]);
      assert Words(t) == [w] + Words(" " + rest);
    }
  }

  lemma {:induction false} WordLenPrefix(w: string, rest: string)
    requires NoSpace(w)
    requires rest == [] || IsSpace(rest[0])
    ensures WordLen(w + rest) == |w|
    decreases |w|
  {
    if w != [] {
      assert (w + rest)[1..] == w[1..] + rest;
      WordLenPrefix(w[1..], rest);
    }
  }

  lemma WordsOfWord(w: string)
    requires IsWord(w)
    ensures Words(w) == [w]
  {
    WordLenPrefix(w, []);
    assert w + [] == w;
  }

  /** The `" "`-join of the words of a normalized string is the string itself. */
  lemma {:induction false} JoinWordsOfNormalized(t: string)
    requires Normalized(t)
    ensures Join(Words(t), " ") == t
    decreases |t|
  {
    if t != [] {
      assert !IsSpace(t[0]);
      var n := WordLen(t);
      if n == |t| {
        assert t[..n] == t && t[n..] == [];
        assert Words(t) == [t[..n]] + Words(t[n..]);
      } else {
        var rest := t[n + 1..];
        NormalizedSplit(t);
        JoinWordsOfNormalized(rest);
        WordsUnfold(rest);
        var ws := [t[..n]] + Words(rest);
        assert |ws| >= 2 && ws[0] == t[..n] && ws[1..] == Words(rest);
      }
    }
  }

  /** A normalized string with a space after its first word is that word, the
      space, and a normalized rest that starts with a word. */
  lemma NormalizedSplit(t: string)
    requires Normalized(t) && t != [] && WordLen(t) < |t|
    ensures var n := WordLen(t);
      var rest := t[n + 1..];
      && Normalized(rest) && rest != [] && !IsSpace(rest[0])
      && Words(t) == [t[..n]] + Words(rest)
      && t == t[..n] + " " + rest
  {
    var n := WordLen(t);
    var rest := t[n + 1..];
    assert t[n] == ' ' && !IsSpace(t[n + 1]);
    assert !IsSpace(t[0]);
    WordsUnfold(t);
    assert t[n..][1..] == rest;
    assert Words(t[n..]) == Words(rest);
    NormalizedTail(t, n + 1);
  }

  /** Dropping a prefix that ends in a word character keeps a string normalized. */
  lemma NormalizedTail(t: string, m: nat)
    requires Normalized(t) && 0 < m < |t| && !IsSpace(t[m])
    ensures Normalized(t[m..])
  {
    var rest := t[m..];
    forall i | 0 <= i < |rest| && IsSpace(rest[i])
      ensures rest[i] == ' ' && 0 < i < |rest| - 1 && !IsSpace(rest[i - 1]) && !IsSpace(rest[i + 1])
    {
      assert rest[i] == t[m + i];
    }
  }

  // ---------------------------------------------------------------- strip

  function LStrip(s: string): (r: string)
  {
    if s != [] && IsSpace(s[0]) then LStrip(s[1..]) else s
  }

  /** `lstrip` drops a prefix and leaves no leading whitespace. */
  lemma {:induction false} LStripShape(s: string)
    ensures |LStrip(s)| <= |s| && LStrip(s) == s[|s| - |LStrip(s)|..]
    ensures LStrip(s) == [] || !IsSpace(LStrip(s)[0])
    decreases |s|
  {
    if s != [] && IsSpace(s[0]) {
      LStripShape(s[1..]);
    }
  }

  function RStrip(s: string): (r: string)
  {
    if s != [] && IsSpace(s[|s| - 1]) then RStrip(s[..|s| - 1]) else s
  }

  /** `rstrip` drops a suffix and leaves no trailing whitespace. */
  lemma {:induction false} RStripShape(s: string)
    ensures |RStrip(s)| <= |s| && RStrip(s) == s[..|RStrip(s)|]
    ensures RStrip(s) == [] || !IsSpace(RStrip(s)[|RStrip(s)| - 1])
    decreases |s|
  {
    if s != [] && IsSpace(s[|s| - 1]) {
      RStripShape(s[..|s| - 1]);
    }
  }

  /** Python's `s.strip()`. */
  function Strip(s: string): (r: string)
    ensures r == [] || (!IsSpace(r[0]) && !IsSpace(r[|r| - 1]))
  {
    LStripShape(s);
    RStripShape(LStrip(s));
    RStrip(LStrip(s))
  }

  /** Whitespace in front of a text changes none of its words. */
  lemma {:induction false} WordsDropSpaces(s: string, k: nat)
    requires k <= |s| && forall i | 0 <= i < k :: IsSpace(s[i])
    ensures Words(s) == Words(s[k..])
    decreases k
  {
    if k > 0 {
      assert s[1..][k - 1..] == s[k..];
      WordsDropSpaces(s[1..], k - 1);
    }
  }

  /** A whitespace character after a text changes none of its words. */
  lemma {:induction false} WordsSnocSpace(x: string, c: char)
    requires IsSpace(c)
    ensures Words(x + [c]) == Words(x)
    decreases |x|
  {
    if x == [] {
      assert x + [c] == [c] && [c][1..] == [];
    } else if IsSpace(x[0]) {
      assert (x + [c])[1..] == x[1..] + [c];
      WordsSnocSpace(x[1..], c);
    } else {
      var n := WordLen(x);
      assert NoSpace(x[..n]) by {
        forall i | 0 <= i < n ensures !IsSpace(x[..n][i]) { assert x[..n][i] == x[i]; }
      }
      assert x + [c] == x[..n] + (x[n..] + [c]);
      WordLenPrefix(x[..n], x[n..] + [c]);
      WordsUnfold(x);
      WordsUnfold(x + [c]);
      assert (x + [c])[..n] == x[..n] && (x + [c])[n..] == x[n..] + [c];
      WordsSnocSpace(x[n..], c);
    }
  }

  lemma {:induction false} WordsLStrip(s: string)
    ensures Words(LStrip(s)) == Words(s)
    decreases |s|
  {
    if s != [] && IsSpace(s[0]) {
      WordsLStrip(s[1..]);
    }
  }

  lemma {:induction false} WordsRStrip(s: string)
    ensures Words(RStrip(s)) == Words(s)
    decreases |s|
  {
    if s != [] && IsSpace(s[|s| - 1]) {
      var x := s[..|s| - 1];
      assert s == x + [s[|s| - 1]];
      WordsSnocSpace(x, s[|s| - 1]);
      WordsRStrip(x);
    }
  }

  /** `strip()` keeps every word: `s.strip().split()` is `s.split()`. */
  lemma WordsStrip(s: string)
    ensures Words(Strip(s)) == Words(s)
  {
    WordsLStrip(s);
    WordsRStrip(LStrip(s));
  }

  /** A non-space character in front of a text starts a word of its own, or
      joins the text's first word when the text starts with one. */
  lemma WordsConsWord(c: char, t: string)
    requires !IsSpace(c)
    ensures t == [] || IsSpace(t[0]) ==> Words([c] + t) == [[c]] + Words(t)
    ensures t != [] && !IsSpace(t[0]) ==> Words(t) != [] && Words([c] + t) == [[c] + Words(t)[0]] + Words(t)[1..]
  {
    var s := [c] + t;
    assert s[0] == c && s[1..] == t;
    var n := WordLen(t);
    assert WordLen(s) == 1 + n;
    WordsUnfold(s);
    assert s[..1 + n] == [c] + t[..n];
    assert s[1 + n..] == t[n..];
    if t != [] && !IsSpace(t[0]) {
      WordsUnfold(t);
    }
  }

  // ---------------------------------------------------------------- split(sep), replace

  function SplitFrom(s: string, sep: string, cur: string): (r: seq<string>)
    requires |sep| > 0
    ensures |r| >= 1
    decreases |s|
  {
    if s == [] then [cur]
    else if StartsWith(s, sep) then [cur] + SplitFrom(s[|sep|..], sep, "")
    else SplitFrom(s[1..], sep, cur + [s[0]])
  }

  /** Python's `s.split(sep)` for a non-empty separator: the pieces between
      the non-overlapping occurrences of `sep`, scanned from the left. */
  function Split(s: string, sep: string): (r: seq<string>)
    requires |sep| > 0
    ensures |r| >= 1
  {
    SplitFrom(s, sep, "")
  }

  lemma {:induction false} SplitFromHead(s: string, c: char, cur: string)
    requires forall i | 0 <= i < |cur| :: cur[i] != c
    ensures var h := SplitFrom(s, [c], cur)[0];
      |cur| <= |h| <= |cur| + |s| && h == cur + s[..|h| - |cur|]
      && (forall i | 0 <= i < |h| :: h[i] != c)
      && (|h| - |cur| < |s| ==> s[|h| - |cur|] == c)
    decreases |s|
  {
    if s != [] && !StartsWith(s, [c]) {
      SplitFromHead(s[1..], c, cur + [s[0]]);
      assert SplitFrom(s, [c], cur) == SplitFrom(s[1..], [c], cur + [s[0]]);
      var h := SplitFrom(s, [c], cur)[0];
      assert |h| - |cur| - 1 <= |s[1..]|;
      assert s[1..][..|h| - |cur| - 1] == s[1..|h| - |cur|];
      assert cur + [s[0]] + s[1..|h| - |cur|] == cur + s[..|h| - |cur|];
    }
  }

  /** The first piece of `s.split(c)` is the text before the first `c`. */
  lemma SplitHead(s: string, c: char)
    ensures var h := Split(s, [c])[0];
      StartsWith(s, h) && (forall i | 0 <= i < |h| :: h[i] != c)
      && (|h| < |s| ==> s[|h|] == c)
  {
    SplitFromHead(s, c, "");
    assert "" + s[..|Split(s, [c])[0]|] == s[..|Split(s, [c])[0]|];
  }

  /** Python's `s.replace(sub, "")`: every non-overlapping occurrence of `sub`,
      scanned from the left, is deleted (an empty `sub` leaves `s` as it is). */
  function RemoveAll(s: string, sub: string): string
    decreases |s|
  {
    if sub == [] || s == [] then s
    else if StartsWith(s, sub) then RemoveAll(s[|sub|..], sub)
    else [s[0]] + RemoveAll(s[1..], sub)
  }

  /** Python's `s.replace(c, "")` for one character. */
  function DropChar(s: string, c: char): (r: string)
    ensures forall i | 0 <= i < |r| :: r[i] != c
    ensures |r| <= |s|
  {
    if s == [] then []
    else (if s[0] == c then [] else [s[0]]) + DropChar(s[1..], c)
  }

  /** Removing a character from a concatenation removes it from each part. */
  lemma {:induction false} DropCharAppend(a: string, b: string, c: char)
    ensures DropChar(a + b, c) == DropChar(a, c) + DropChar(b, c)
  {
    if a == [] {
      assert a + b == b;
    } else {
      assert (a + b)[1..] == a[1..] + b;
      DropCharAppend(a[1..], b, c);
    }
  }

  /** Removing a character keeps only characters of the text. */
  lemma {:induction false} DropCharKeeps(s: string, c: char)
    ensures forall i | 0 <= i < |DropChar(s, c)| :: DropChar(s, c)[i] in s
  {
    if s != [] {
      DropCharKeeps(s[1..], c);
      var r := DropChar(s, c);
      var t := DropChar(s[1..], c);
      assert r == (if s[0] == c then [] else [s[0]]) + t;
      forall i | 0 <= i < |r| ensures r[i] in s {
        if s[0] != c && i == 0 {
        } else {
          var j := if s[0] == c then i else i - 1;
          assert r[i] == t[j] && t[j] in s[1..];
        }
      }
    }
  }

  /** Removing a character that does not occur changes nothing. */
  lemma {:induction false} DropAbsent(t: string, c: char)
    requires forall i | 0 <= i < |t| :: t[i] != c
    ensures DropChar(t, c) == t
  {
    if t != [] {
      DropAbsent(t[1..], c);
      assert [t[0]] + t[1..] == t;
    }
  }

  /** Python's `s.replace(a, b)` for single characters. */
  function ReplaceChar(s: string, a: char, b: char): (r: string)
    ensures |r| == |s|
    ensures forall i | 0 <= i < |s| :: r[i] == if s[i] == a then b else s[i]
  {
    seq(|s|, i requires 0 <= i < |s| => if s[i] == a then b else s[i])
  }

  /** Turning one whitespace character into another changes no word:
      `s.replace("\n", " ").split()` is `s.split()`. */
  lemma {:induction false} WordsReplaceSpace(s: string, a: char, b: char)
    requires IsSpace(a) && IsSpace(b)
    ensures Words(ReplaceChar(s, a, b)) == Words(s)
    decreases |s|
  {
    if s != [] {
      var r := ReplaceChar(s, a, b);
      if IsSpace(s[0]) {
        assert r[1..] == ReplaceChar(s[1..], a, b);
        WordsReplaceSpace(s[1..], a, b);
      } else {
        var n := WordLen(s);
        WordsReplaceSpace(s[n..], a, b);
        FirstWordReplaced(s, a, b);
      }
    }
  }

  /** The first word survives the replacement, and so does the rest when its
      words do. */
  lemma {:induction false} FirstWordReplaced(s: string, a: char, b: char)
    requires IsSpace(a) && IsSpace(b) && s != [] && !IsSpace(s[0])
    requires Words(ReplaceChar(s[WordLen(s)..], a, b)) == Words(s[WordLen(s)..])
    ensures Words(ReplaceChar(s, a, b)) == Words(s)
  {
    var r := ReplaceChar(s, a, b);
    var n := WordLen(s);
    ReplaceKeepsFirstWord(s, a, b);
    WordsUnfold(r);
    WordsUnfold(s);
  }

  /** A string that starts with a word splits into that word and the rest. */
  lemma WordsUnfold(s: string)
    requires s != [] && !IsSpace(s[0])
    ensures Words(s) == [s[..WordLen(s)]] + Words(s[WordLen(s)..])
  {
  }

  /** Replacing one whitespace character by another keeps the first word and
      replaces in the rest only. */
  lemma ReplaceKeepsFirstWord(s: string, a: char, b: char)
    requires IsSpace(a) && IsSpace(b) && s != [] && !IsSpace(s[0])
    ensures ReplaceChar(s, a, b) != [] && !IsSpace(ReplaceChar(s, a, b)[0])
    ensures WordLen(ReplaceChar(s, a, b)) == WordLen(s)
    ensures ReplaceChar(s, a, b)[..WordLen(s)] == s[..WordLen(s)]
    ensures ReplaceChar(s, a, b)[WordLen(s)..] == ReplaceChar(s[WordLen(s)..], a, b)
  {
    var r := ReplaceChar(s, a, b);
    var n := WordLen(s);
    WordLenIs(r, n);
    assert r[..n] == s[..n];
    assert r[n..] == ReplaceChar(s[n..], a, b);
  }

  /** The word length is the index of the first whitespace character. */
  lemma {:induction false} WordLenIs(s: string, n: nat)
    requires n <= |s| && (forall i | 0 <= i < n :: !IsSpace(s[i])) && (n < |s| ==> IsSpace(s[n]))
    ensures WordLen(s) == n
    decreases n
  {
    if n > 0 {
      WordLenIs(s[1..], n - 1);
    }
  }

  // ---------------------------------------------------------------- integers

  function DigitChar(d: nat): char
    requires d < 10
  {
    ('0' as int + d) as char
  }

  function DigitValue(c: char): nat
    requires IsDigit(c)
  {
    c as int - '0' as int
  }

  /** Python's `str(n)` / f"{n}" for a natural number. */
  function NatToString(n: nat): (r: string)
    ensures |r| > 0 && AllDigits(r)
  {
    if n < 10 then [DigitChar(n)] else NatToString(n / 10) + [DigitChar(n % 10)]
  }

  /** Python's f"{i}" for an integer. */
  function IntToString(i: int): string {
    if i < 0 then "-" + NatToString(-i) else NatToString(i)
  }

  /** Python's `int(s)` on a string of decimal digits (leading zeros allowed). */
  function DecimalValue(s: string): nat
    requires AllDigits(s)
  {
    if s == [] then 0 else 10 * DecimalValue(s[..|s| - 1]) + DigitValue(s[|s| - 1])
  }

  /** Reading back a formatted natural number gives the number. */
  lemma {:induction false} DecimalValueOfNatToString(n: nat)
    ensures DecimalValue(NatToString(n)) == n
  {
    if n >= 10 {
      var s := NatToString(n);
      assert s[..|s| - 1] == NatToString(n / 10);
      DecimalValueOfNatToString(n / 10);
    }
  }

  // ---------------------------------------------------------------- sorted()

  /** Python's `<=` on strings: code point by code point, a prefix first. */
  predicate StrLe(a: string, b: string) {
    if a == [] then true
    else if b == [] then false
    else if a[0] != b[0] then a[0] < b[0]
    else StrLe(a[1..], b[1..])
  }

  lemma {:induction false} StrLeTotal(a: string, b: string)
    ensures StrLe(a, b) || StrLe(b, a)
  {
    if a != [] && b != [] && a[0] == b[0] { StrLeTotal(a[1..], b[1..]); }
  }

  lemma {:induction false} StrLeAntisymmetric(a: string, b: string)
    requires StrLe(a, b) && StrLe(b, a)
    ensures a == b
  {
    if a != [] && b != [] {
      StrLeAntisymmetric(a[1..], b[1..]);
      assert a == [a[0]] + a[1..] && b == [b[0]] + b[1..];
    }
  }

  lemma {:induction false} StrLeTransitive(a: string, b: string, c: string)
    requires StrLe(a, b) && StrLe(b, c)
    ensures StrLe(a, c)
  {
    if a != [] && b != [] && c != [] && a[0] == b[0] && b[0] == c[0] {
      StrLeTransitive(a[1..], b[1..], c[1..]);
    }
  }

  lemma {:induction false} StrLeReflexive(a: string)
    ensures StrLe(a, a)
  {
    if a != [] { StrLeReflexive(a[1..]); }
  }

  /** There is only one least element. */
  lemma LeastUnique(s: set<string>)
    ensures forall a, b | IsLeast(a, s) && IsLeast(b, s) :: a == b
  {
    forall a, b | IsLeast(a, s) && IsLeast(b, s) ensures a == b {
      StrLeAntisymmetric(a, b);
    }
  }

  predicate IsLeast(m: string, s: set<string>) {
    m in s && forall y | y in s :: StrLe(m, y)
  }

  /** A finite non-empty set of strings has a least element. */
  lemma {:induction false} LeastExists(s: set<string>)
    requires s != {}
    ensures exists m :: IsLeast(m, s)
    decreases |s|
  {
    var x :| x in s;
    if s - {x} == {} {
      assert s == {x};
      StrLeReflexive(x);
      assert IsLeast(x, s);
    } else {
      LeastExists(s - {x});
      var m :| IsLeast(m, s - {x});
      StrLeTotal(m, x);
      if StrLe(m, x) {
        assert forall y | y in s :: y == x || y in s - {x};
        assert IsLeast(m, s);
      } else {
        forall y | y in s ensures StrLe(x, y) {
          if y == x { StrLeReflexive(x); } else { StrLeTransitive(x, m, y); }
        }
        assert IsLeast(x, s);
      }
    }
  }

  /** Python's `sorted` on a collection of distinct strings. */
  function SortedSet(s: set<string>): (r: seq<string>)
    ensures |r| == |s| && forall x :: x in r <==> x in s
    ensures forall i, j | 0 <= i < j < |r| :: StrLe(r[i], r[j]) && r[i] != r[j]
    decreases |s|
  {
    if s == {} then []
    else
      LeastExists(s);
      LeastUnique(s);
      var m :| IsLeast(m, s);
      var rest := SortedSet(s - {m});
      SortedCons(m, rest);
      [m] + rest
  }

  /** A least element put before a sorted sequence of larger ones keeps it
      sorted. */
  lemma SortedCons(m: string, rest: seq<string>)
    requires forall x | x in rest :: StrLe(m, x) && x != m
    requires forall i, j | 0 <= i < j < |rest| :: StrLe(rest[i], rest[j]) && rest[i] != rest[j]
    ensures forall i, j | 0 <= i < j < |[m] + rest| :: StrLe(([m] + rest)[i], ([m] + rest)[j]) && ([m] + rest)[i] != ([m] + rest)[j]
  {
    var r := [m] + rest;
    forall i, j | 0 <= i < j < |r| ensures StrLe(r[i], r[j]) && r[i] != r[j] {
      if i == 0 {
        assert r[j] == rest[j - 1] && r[j] in rest;
      } else {
        assert r[i] == rest[i - 1] && r[j] == rest[j - 1];
      }
    }
  }
}
