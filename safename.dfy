/**
 * The directory/file-name sanitiser shared by the pipeline (`sanitize_dirname`)
 * and the command line (`sanitize_filename`): both apply the same chain of
 * substitutions and differ only in their default length limit.
 */
module SafeName {
  import opened Text

  /** Hangul syllables, the explicit range `가-힣` of the character class. */
  predicate IsHangul(c: char) { '가' <= c <= '힣' }

  /**
   * Python's Unicode `\w`, restricted to the scripts listed here: ASCII
   * letters and digits, '_', the Latin letters of U+00C0..U+024F (without
   * '×' and '÷'), the kana letters and length and iteration marks (not the
   * kana punctuation '゛', '゜', '゠', '・', the combining marks or the
   * unassigned code points), the CJK ideographs U+4E00..U+9FFF, and the
   * Hangul jamo and compatibility jamo. Other scripts' letters and digits,
   * which `\w` also matches, are not word characters here.
   */
  predicate IsWordChar(c: char) {
    ('a' <= c <= 'z') || ('A' <= c <= 'Z') || IsDigit(c) || c == '_'
    || ('\U{C0}' <= c <= '\U{24F}' && c != '\U{D7}' && c != '\U{F7}')
    || ('\U{3041}' <= c <= '\U{3096}') || ('\U{309D}' <= c <= '\U{309F}')
    || ('\U{30A1}' <= c <= '\U{30FA}') || ('\U{30FC}' <= c <= '\U{30FF}')
    || ('\U{4E00}' <= c <= '\U{9FFF}')
    || ('\U{1100}' <= c <= '\U{11FF}') || ('\U{3131}' <= c <= '\U{318E}')
    || IsHangul(c)
  }

  /** The kana punctuation is removed, the prolonged-sound mark is kept. */
  lemma KanaPunctuation()
    ensures !Kept('・') && !Kept('゠') && !Kept('゛') && !Kept('゜')
    ensures Kept('ー') && Kept('ゝ') && Kept('東')
  {
  }

  /** The characters that `[^\w\s\-가-힣]` leaves in place. */
  predicate Kept(c: char) { IsWordChar(c) || IsSpace(c) || c == '-' }

  /** In a sanitised name every character is a word character or '-'. */
  predicate NameChar(c: char) { IsWordChar(c) || c == '-' }

  predicate NoDoubleUnderscore(s: string) {
    forall i :: 0 <= i < |s| - 1 ==> !(s[i] == '_' && s[i + 1] == '_')
  }

  /** `re.sub(r'[^\w\s\-가-힣]', '', s)`. */
  function RemoveDisallowed(s: string): (r: string)
    ensures forall i :: 0 <= i < |r| ==> Kept(r[i])
    ensures forall c :: c in r <==> c in s && Kept(c)
    ensures (forall i :: 0 <= i < |s| ==> Kept(s[i])) ==> r == s
  {
    if s == [] then [] else (if Kept(s[0]) then [s[0]] else []) + RemoveDisallowed(s[1..])
  }

  /** `re.sub(r'\s+', '_', s)`: every maximal whitespace run becomes one '_'. */
  function SpaceRunsToUnderscore(s: string): (r: string)
    ensures forall i :: 0 <= i < |r| ==> !IsSpace(r[i])
    ensures forall i :: 0 <= i < |r| ==> r[i] == '_' || r[i] in s
    ensures (forall i :: 0 <= i < |s| ==> !IsSpace(s[i])) ==> r == s
    decreases |s|
  {
    if s == [] then []
    else if IsSpace(s[0]) then
      var rest := LStrip(s);
      assert |rest| < |s|;
      "_" + SpaceRunsToUnderscore(rest)
    else [s[0]] + SpaceRunsToUnderscore(s[1..])
  }

  /** `s` without its leading run of '_'. */
  function DropUnderscores(s: string): (r: string)
    ensures |r| <= |s| && r == s[|s| - |r|..]
    ensures r == [] || r[0] != '_'
    decreases |s|
  {
    if |s| > 0 && s[0] == '_' then DropUnderscores(s[1..]) else s
  }

  /** `re.sub(r'_{2,}', '_', s)`: every maximal run of '_' becomes one '_'. */
  function SqueezeUnderscores(s: string): (r: string)
    ensures NoDoubleUnderscore(r)
    ensures |r| > 0 && r[0] == '_' ==> |s| > 0 && s[0] == '_'
    ensures forall i :: 0 <= i < |r| ==> r[i] in s
    ensures NoDoubleUnderscore(s) ==> r == s
    decreases |s|
  {
    if s == [] then []
    else
      var rest := if s[0] == '_' then DropUnderscores(s) else s[1..];
      assert |rest| < |s|;
      var t := SqueezeUnderscores(rest);
      SqueezeHeadIn(s, rest, t);
      SqueezeHeadSingle(s, rest, t);
      SqueezeHeadFixed(s, rest, t);
      [s[0]] + t
  }

  /** A step of `SqueezeUnderscores` takes its characters from `s`. */
  lemma SqueezeHeadIn(s: string, rest: string, t: string)
    requires |s| > 0 && |rest| < |s| && rest == s[|s| - |rest|..]
    requires forall i :: 0 <= i < |t| ==> t[i] in rest
    ensures forall i :: 0 <= i < |[s[0]] + t| ==> ([s[0]] + t)[i] in s
  {
    var r := [s[0]] + t;
    forall i | 0 <= i < |r|
      ensures r[i] in s
    {
      if i > 0 {
        assert r[i] == t[i - 1];
        SuffixIn(s, rest, t[i - 1]);
      }
    }
  }

  /** A step of `SqueezeUnderscores` leaves no '_' pair: after a '_' the rest starts otherwise. */
  lemma SqueezeHeadSingle(s: string, rest: string, t: string)
    requires |s| > 0 && (s[0] == '_' ==> rest == DropUnderscores(s))
    requires NoDoubleUnderscore(t)
    requires |t| > 0 && t[0] == '_' ==> |rest| > 0 && rest[0] == '_'
    ensures NoDoubleUnderscore([s[0]] + t)
  {
    var r := [s[0]] + t;
    forall i | 0 <= i < |r| - 1
      ensures !(r[i] == '_' && r[i + 1] == '_')
    {
      if i > 0 {
        assert r[i] == t[i - 1] && r[i + 1] == t[i];
      } else {
        assert r[1] == t[0];
      }
    }
  }

  /** A step of `SqueezeUnderscores` on a name without '_' pairs keeps it. */
  lemma SqueezeHeadFixed(s: string, rest: string, t: string)
    requires |s| > 0 && rest == (if s[0] == '_' then DropUnderscores(s) else s[1..])
    requires NoDoubleUnderscore(rest) ==> t == rest
    ensures NoDoubleUnderscore(s) ==> [s[0]] + t == s
  {
    if NoDoubleUnderscore(s) {
      if s[0] == '_' {
        assert |s| > 1 ==> s[1..][0] != '_';
        assert DropUnderscores(s[1..]) == s[1..];
      }
      assert rest == s[1..];
      assert NoDoubleUnderscore(rest);
    }
  }

  lemma SuffixIn(s: string, rest: string, c: char)
    requires |rest| <= |s| && rest == s[|s| - |rest|..] && c in rest
    ensures c in s
  {
    var k :| 0 <= k < |rest| && rest[k] == c;
    assert s[|s| - |rest| + k] == c;
  }

  /** `s[:n].rstrip('_')` when `len(s) > n`, else `s`. */
  function Truncate(s: string, n: int): (r: string)
    ensures |r| <= |s| && r == s[..|r|]
    ensures n >= 0 ==> |r| <= n
    ensures |s| <= n ==> r == s
  {
    if |s| > n then RStripChar(SliceTo(s, n), '_') else s
  }

  lemma PrefixKeeps(s: string, r: string)
    requires |r| <= |s| && r == s[..|r|]
    requires forall i :: 0 <= i < |s| ==> NameChar(s[i])
    requires NoDoubleUnderscore(s)
    ensures forall i :: 0 <= i < |r| ==> NameChar(r[i])
    ensures NoDoubleUnderscore(r)
  {
    assert forall i :: 0 <= i < |r| ==> r[i] == s[i];
  }

  lemma ChainChars(a: string, c: string, d: string)
    requires forall i :: 0 <= i < |a| ==> Kept(a[i])
    requires c == SpaceRunsToUnderscore(Strip(a)) && d == SqueezeUnderscores(c)
    ensures forall i :: 0 <= i < |d| ==> NameChar(d[i])
  {
    StripChars(a);
    var b := Strip(a);
    assert forall i :: 0 <= i < |b| ==> Kept(b[i]);
    forall i | 0 <= i < |c|
      ensures NameChar(c[i])
    {
      if c[i] != '_' {
        KeptIn(b, c[i]);
      }
    }
  }

  lemma KeptIn(b: string, x: char)
    requires (forall i :: 0 <= i < |b| ==> Kept(b[i])) && x in b && !IsSpace(x)
    ensures NameChar(x)
  {
    var k :| 0 <= k < |b| && b[k] == x;
    assert Kept(b[k]);
  }

  /** The substitutions before the cut: removal, `strip`, whitespace runs, underscore runs. */
  function Substitute(text: string): (d: string)
    ensures forall i :: 0 <= i < |d| ==> NameChar(d[i]) && !IsSpace(d[i])
    ensures NoDoubleUnderscore(d)
  {
    var a := RemoveDisallowed(text);
    var c := SpaceRunsToUnderscore(Strip(a));
    var d := SqueezeUnderscores(c);
    ChainChars(a, c, d);
    d
  }

  /** The whole substitution chain; `maxLength` is the limit of the caller. */
  function Sanitize(text: string, maxLength: int): (r: string)
    ensures forall i :: 0 <= i < |r| ==> NameChar(r[i]) && !IsSpace(r[i])
    ensures NoDoubleUnderscore(r)
    ensures maxLength >= 0 ==> |r| <= maxLength
  {
    var d := Substitute(text);
    var e := Truncate(d, maxLength);
    PrefixKeeps(d, e);
    e
  }

  /** Sanitising a sanitised name changes nothing (for a non-negative limit). */
  lemma SanitizeIdempotent(text: string, maxLength: int)
    requires maxLength >= 0
    ensures Sanitize(Sanitize(text, maxLength), maxLength) == Sanitize(text, maxLength)
  {
    SanitizedFixed(Sanitize(text, maxLength), maxLength);
  }

  /** A name of word characters and '-', without "__" and within the limit, is left alone. */
  lemma SanitizedFixed(r: string, maxLength: int)
    requires forall i :: 0 <= i < |r| ==> NameChar(r[i]) && !IsSpace(r[i])
    requires NoDoubleUnderscore(r) && |r| <= maxLength
    ensures Sanitize(r, maxLength) == r
  {
    SubstituteFixed(r);
    assert Truncate(r, maxLength) == r;
  }

  lemma SubstituteFixed(r: string)
    requires forall i :: 0 <= i < |r| ==> NameChar(r[i]) && !IsSpace(r[i])
    requires NoDoubleUnderscore(r)
    ensures Substitute(r) == r
  {
    assert forall i :: 0 <= i < |r| ==> Kept(r[i]);
    var a := RemoveDisallowed(r);
    assert a == r;
    StripNoEdgeSpace(r);
    var c := SpaceRunsToUnderscore(Strip(a));
    assert c == r;
    SqueezeFixed(c);
  }

  lemma SqueezeFixed(s: string)
    requires NoDoubleUnderscore(s)
    ensures SqueezeUnderscores(s) == s
  {
  }
}
