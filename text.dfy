/**
  The JavaScript string operations the core relies on, on `string` (a sequence of characters):
  `indexOf`/`includes`, `startsWith`, `trim`, `Array.prototype.join`, `split(sep)[1]` and
  `String.prototype.replace` with a string pattern.
 */
module Text {
  import opened Wrappers

  /** A truthy optional string in JavaScript's sense: present and not empty. */
  predicate Truthy(s: Option<string>) {
    s.Some? && s.value != ""
  }

  /** `pat` occurs in `s` starting at index `j`. */
  predicate OccursAt(s: string, pat: string, j: nat) {
    j + |pat| <= |s| && s[j..j + |pat|] == pat
  }

  /** The first index at or after `k` where `pat` occurs in `s`. */
  function FindFrom(s: string, pat: string, k: nat): (r: Option<nat>)
    decreases |s| - k
    ensures r.Some? ==> k <= r.value && OccursAt(s, pat, r.value)
    ensures r.Some? ==> forall j :: k <= j < r.value ==> !OccursAt(s, pat, j)
    ensures r.None? ==> forall j :: k <= j ==> !OccursAt(s, pat, j)
  {
    if k + |pat| > |s| then None
    else if s[k..k + |pat|] == pat then Some(k)
    else FindFrom(s, pat, k + 1)
  }

  /** `s.indexOf(pat)`, with `None` for -1: the first occurrence of `pat` in `s`. */
  function FindFirst(s: string, pat: string): (r: Option<nat>)
    ensures r.Some? ==> OccursAt(s, pat, r.value) && forall j :: 0 <= j < r.value ==> !OccursAt(s, pat, j)
    ensures r.None? <==> forall j :: 0 <= j ==> !OccursAt(s, pat, j)
  {
    FindFrom(s, pat, 0)
  }

  /** `s.includes(pat)`. */
  predicate Contains(s: string, pat: string) {
    FindFirst(s, pat).Some?
  }

  /** `s.startsWith(prefix)`. */
  predicate StartsWith(s: string, prefix: string) {
    |prefix| <= |s| && s[..|prefix|] == prefix
  }

  /** `s.endsWith(suffix)`. */
  predicate EndsWith(s: string, suffix: string) {
    |suffix| <= |s| && s[|s| - |suffix|..] == suffix
  }

  /** Dropping a suffix's worth of characters from `a + b` leaves `a`. */
  lemma DropAppended(a: string, b: string)
    ensures (a + b)[..|a + b| - |b|] == a
  {
  }

  /** `a + b` ends with `b`. */
  lemma EndsWithAppended(a: string, b: string)
    ensures EndsWith(a + b, b)
  {
  }

  /** A pattern holding a character that `s` lacks does not occur in `s`. */
  lemma AbsentCharNotContained(s: string, pat: string, c: char)
    requires c in pat && c !in s
    ensures !Contains(s, pat)
  {
    var k :| 0 <= k < |pat| && pat[k] == c;
    forall j | 0 <= j ensures !OccursAt(s, pat, j) {
      if j + |pat| <= |s| {
        assert s[j..j + |pat|][k] == s[j + k] != c;
      }
    }
  }

  /** The characters `String.prototype.trim` removes: ECMAScript WhiteSpace and LineTerminator. */
  predicate IsSpace(c: char) {
    c == '\t' || c == '\n' || c == '\U{000B}' || c == '\U{000C}' || c == '\r' || c == ' '
    || c == '\U{00A0}' || c == '\U{1680}' || ('\U{2000}' <= c <= '\U{200A}')
    || c == '\U{2028}' || c == '\U{2029}' || c == '\U{202F}' || c == '\U{205F}'
    || c == '\U{3000}' || c == '\U{FEFF}'
  }

  /** `s` with its leading white space removed: a suffix of `s` that does not start with white space. */
  function TrimStart(s: string): (r: string)
    ensures |r| <= |s| && r == s[|s| - |r|..]
    ensures forall i :: 0 <= i < |s| - |r| ==> IsSpace(s[i])
    ensures |r| > 0 ==> !IsSpace(r[0])
  {
    if |s| > 0 && IsSpace(s[0]) then TrimStart(s[1..]) else s
  }

  /** `s` with its trailing white space removed: a prefix of `s` that does not end with white space. */
  function TrimEnd(s: string): (r: string)
    ensures |r| <= |s| && r == s[..|r|]
    ensures forall i :: |r| <= i < |s| ==> IsSpace(s[i])
    ensures |r| > 0 ==> !IsSpace(r[|r| - 1])
  {
    if |s| > 0 && IsSpace(s[|s| - 1]) then TrimEnd(s[..|s| - 1]) else s
  }

  /** `s.trim()`. */
  function Trim(s: string): string {
    TrimEnd(TrimStart(s))
  }

  /** `s.trim()` is empty exactly when every character of `s` is white space. */
  lemma TrimEmptyIff(s: string)
    ensures Trim(s) == "" <==> forall i :: 0 <= i < |s| ==> IsSpace(s[i])
  {
    var t := TrimStart(s);
    if Trim(s) == "" {
      assert |t| == 0;
    } else {
      var r := Trim(s);
      assert r[0] == t[0] == s[|s| - |t|];
    }
  }

  /** Trimming introduces no character: one absent from `s` is absent from `s.trim()`. */
  lemma TrimKeepsAbsent(s: string, c: char)
    requires forall i :: 0 <= i < |s| ==> s[i] != c
    ensures forall i :: 0 <= i < |Trim(s)| ==> Trim(s)[i] != c
  {
    var t := TrimStart(s);
    forall i | 0 <= i < |Trim(s)| ensures Trim(s)[i] != c {
      assert Trim(s)[i] == t[i] == s[|s| - |t| + i];
    }
  }

  /** `parts.join(sep)`. */
  function Join(parts: seq<string>, sep: string): string
  {
    if |parts| == 0 then ""
    else if |parts| == 1 then parts[0]
    else parts[0] + sep + Join(parts[1..], sep)
  }

  /** A join of a non-empty list starts with its first part and ends with its last part. */
  lemma {:induction false} JoinEnds(parts: seq<string>, sep: string)
    requires |parts| > 0
    ensures StartsWith(Join(parts, sep), parts[0])
    ensures |parts[|parts| - 1]| <= |Join(parts, sep)|
    ensures Join(parts, sep)[|Join(parts, sep)| - |parts[|parts| - 1]|..] == parts[|parts| - 1]
  {
    if |parts| > 1 {
      JoinEnds(parts[1..], sep);
      var j := Join(parts, sep);
      assert j == parts[0] + sep + Join(parts[1..], sep);
      assert j[..|parts[0]|] == parts[0];
    }
  }

  /** The joined text is empty when there are no parts, and not empty when the last part is not. */
  lemma JoinEmpty(parts: seq<string>, sep: string)
    ensures |parts| == 0 ==> Join(parts, sep) == ""
    ensures |parts| > 0 && parts[|parts| - 1] != "" ==> Join(parts, sep) != ""
  {
    if |parts| > 0 {
      JoinEnds(parts, sep);
    }
  }

  /** The text of `rest` before its first `sep`, or all of it when there is none. */
  function FieldTo(rest: string, sep: string): string {
    match FindFirst(rest, sep)
    case None => rest
    case Some(j) => rest[..j]
  }

  /** That text holds no `sep`. */
  lemma FieldToNoSeparator(rest: string, sep: string)
    requires sep != ""
    ensures !Contains(FieldTo(rest, sep), sep)
  {
    match FindFirst(rest, sep)
    case None =>
    case Some(j) => NoEarlierOccurrence(rest, sep, j);
  }

  /** That text is a prefix of `rest`, followed in `rest` by `sep` or by nothing. */
  lemma FieldToBounds(rest: string, sep: string)
    ensures StartsWith(rest, FieldTo(rest, sep))
    ensures |FieldTo(rest, sep)| == |rest| || OccursAt(rest, sep, |FieldTo(rest, sep)|)
  {
    assert rest[..|rest|] == rest;
  }

  /**
    `s.split(sep)[1]` for a non-empty separator: the text between the first and the second
    occurrence of `sep` (or to the end when there is no second one); `None` (undefined) when
    `sep` does not occur.
   */
  function SecondField(s: string, sep: string): (r: Option<string>)
    requires sep != ""
    ensures r.Some? <==> Contains(s, sep)
    ensures r.Some? ==> !Contains(r.value, sep)
  {
    match FindFirst(s, sep)
    case None => None
    case Some(i) =>
      FieldToNoSeparator(s[i + |sep|..], sep);
      Some(FieldTo(s[i + |sep|..], sep))
  }

  /**
    The field `split(sep)[1]` returns is a prefix of the text after the first `sep`, and in that
    text it is followed by the next `sep` or by nothing.
   */
  lemma SecondFieldBounds(s: string, sep: string)
    requires sep != "" && Contains(s, sep)
    ensures var after := s[FindFirst(s, sep).value + |sep|..]; var f := SecondField(s, sep).value;
      && StartsWith(after, f)
      && (|f| == |after| || OccursAt(after, sep, |f|))
  {
    assert SecondField(s, sep).value == FieldTo(s[FindFirst(s, sep).value + |sep|..], sep);
    FieldToBounds(s[FindFirst(s, sep).value + |sep|..], sep);
  }

  /** A prefix of `s` that ends before the first occurrence of `pat` does not contain `pat`. */
  lemma NoEarlierOccurrence(s: string, pat: string, j: nat)
    requires j <= |s|
    requires forall k :: 0 <= k < j ==> !OccursAt(s, pat, k)
    requires pat != ""
    ensures !Contains(s[..j], pat)
  {
    var p := s[..j];
    forall k | 0 <= k ensures !OccursAt(p, pat, k) {
      if OccursAt(p, pat, k) {
        assert s[k..k + |pat|] == p[k..k + |pat|];
        assert OccursAt(s, pat, k);
      }
    }
  }

  /**
    `s.replace(pat, rep)` with the replacement inserted verbatim: the first occurrence of `pat`
    is replaced by `rep`; `s` is returned unchanged when `pat` does not occur.
   */
  function ReplaceFirst(s: string, pat: string, rep: string): (r: string)
    ensures FindFirst(s, pat).None? ==> r == s
    ensures FindFirst(s, pat).Some? ==>
      var i := FindFirst(s, pat).value;
      r == s[..i] + rep + s[i + |pat|..]
    ensures Contains(s, pat) ==>
      var i := FindFirst(s, pat).value;
      && |r| == |s| - |pat| + |rep|
      && r[..i] == s[..i]
      && OccursAt(r, rep, i)
      && r[i + |rep|..] == s[i + |pat|..]
    ensures Contains(s, pat) && pat != "" ==> !Contains(r[..FindFirst(s, pat).value], pat)
  {
    match FindFirst(s, pat)
    case None => s
    case Some(i) =>
      var r := s[..i] + rep + s[i + |pat|..];
      assert r[..i] == s[..i];
      assert r[i..i + |rep|] == rep;
      if pat != "" then NoEarlierOccurrence(s, pat, i); r else r
  }

  /**
    The replacement text `String.prototype.replace` actually inserts for a string pattern
    (ECMAScript GetSubstitution with no capture groups): `$$` stands for `$`, `$&` for the matched
    text, `` $` `` for the text before the match and `$'` for the text after it; every other
    character, including any other `$`, stands for itself.
   */
  function Substitution(rep: string, matched: string, before: string, after: string): string
  {
    if |rep| >= 2 && rep[0] == '$' && rep[1] == '$' then "$" + Substitution(rep[2..], matched, before, after)
    else if |rep| >= 2 && rep[0] == '$' && rep[1] == '&' then matched + Substitution(rep[2..], matched, before, after)
    else if |rep| >= 2 && rep[0] == '$' && rep[1] == '`' then before + Substitution(rep[2..], matched, before, after)
    else if |rep| >= 2 && rep[0] == '$' && rep[1] == '\'' then after + Substitution(rep[2..], matched, before, after)
    else if |rep| >= 1 then [rep[0]] + Substitution(rep[1..], matched, before, after)
    else ""
  }

  /** A replacement without any `$` is inserted as it is. */
  lemma {:induction false} SubstitutionPlain(rep: string, matched: string, before: string, after: string)
    requires forall i :: 0 <= i < |rep| ==> rep[i] != '$'
    ensures Substitution(rep, matched, before, after) == rep
  {
    if |rep| > 0 {
      SubstitutionPlain(rep[1..], matched, before, after);
    }
  }

  /** `s.replace(pat, rep)` exactly as JavaScript evaluates it for a string pattern. */
  function ReplaceFirstJs(s: string, pat: string, rep: string): (r: string)
    ensures FindFirst(s, pat).None? ==> r == s
    ensures FindFirst(s, pat).Some? ==>
      var i := FindFirst(s, pat).value;
      r == s[..i] + Substitution(rep, pat, s[..i], s[i + |pat|..]) + s[i + |pat|..]
    ensures Contains(s, pat) ==>
      var i := FindFirst(s, pat).value;
      && i + |s| - (i + |pat|) <= |r|
      && r[..i] == s[..i]
      && r[|r| - (|s| - (i + |pat|))..] == s[i + |pat|..]
    ensures Contains(s, pat) && pat != "" ==> !Contains(r[..FindFirst(s, pat).value], pat)
  {
    match FindFirst(s, pat)
    case None => s
    case Some(i) =>
      var after := s[i + |pat|..];
      var r := s[..i] + Substitution(rep, pat, s[..i], after) + after;
      assert r[..i] == s[..i];
      assert r[|r| - |after|..] == after;
      if pat != "" then NoEarlierOccurrence(s, pat, i); r else r
  }

  /** Without `$` in the replacement, JavaScript's `replace` and the verbatim replacement agree. */
  lemma ReplaceAgreesWithoutDollar(s: string, pat: string, rep: string)
    requires forall i :: 0 <= i < |rep| ==> rep[i] != '$'
    ensures ReplaceFirstJs(s, pat, rep) == ReplaceFirst(s, pat, rep)
  {
    if FindFirst(s, pat).Some? {
      var i := FindFirst(s, pat).value;
      SubstitutionPlain(rep, pat, s[..i], s[i + |pat|..]);
      assert ReplaceFirstJs(s, pat, rep) == s[..i] + rep + s[i + |pat|..];
    }
  }
}
