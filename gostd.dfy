/**
 * The parts of Go's standard library (packages strings and path/filepath,
 * on a system whose path separator is '/') that the transcoding server
 * relies on.  Go strings are byte strings; here they are sequences of
 * characters, which agrees with Go for everything below because '.' and '/'
 * never occur inside a multi-byte UTF-8 sequence.
 */
module GoStd {

  const Separator: char := '/'

  predicate HasPrefix(s: string, prefix: string) {
    |prefix| <= |s| && s[..|prefix|] == prefix
  }

  predicate HasSuffix(s: string, suffix: string) {
    |suffix| <= |s| && s[|s| - |suffix|..] == suffix
  }

  /** strings.TrimPrefix: s without a leading prefix, or s unchanged. */
  function TrimPrefix(s: string, prefix: string): (r: string)
    ensures HasPrefix(s, prefix) ==> prefix + r == s
    ensures !HasPrefix(s, prefix) ==> r == s
  {
    if HasPrefix(s, prefix) then s[|prefix|..] else s
  }

  /** strings.TrimSuffix: s without a trailing suffix, or s unchanged. */
  function TrimSuffix(s: string, suffix: string): (r: string)
    ensures HasSuffix(s, suffix) ==> r + suffix == s
    ensures !HasSuffix(s, suffix) ==> r == s
  {
    if HasSuffix(s, suffix) then s[..|s| - |suffix|] else s
  }

  /**
   * The characterisation of filepath.Ext: e is a suffix of path that is
   * either empty, when the final path element holds no '.', or starts with
   * the last '.' of the final element.
   */
  ghost predicate IsExtOf(path: string, e: string) {
    && HasSuffix(path, e)
    && (e != "" ==> e[0] == '.' && forall k :: 0 < k < |e| ==> e[k] != '.' && e[k] != Separator)
    && (e == "" ==> forall k :: 0 <= k < |path| && path[k] == '.' ==> Separator in path[k + 1..])
  }

  /**
   * filepath.Ext: scanning back from the end and stopping at a separator,
   * the suffix that starts at the first '.' met; empty when there is none.
   */
  function Ext(path: string): (e: string)
    ensures HasSuffix(path, e)
    ensures e == "" || e[0] == '.'
    decreases |path|
  {
    if |path| == 0 then ""
    else
      var c := path[|path| - 1];
      if c == Separator then ""
      else if c == '.' then "."
      else
        var init := path[..|path| - 1];
        var e := Ext(init);
        if e == "" then ""
        else
          assert path[|path| - |e| - 1..] == init[|init| - |e|..] + [c];
          e + [c]
  }

  /** Ext meets its characterisation. */
  lemma {:induction false} ExtIsExtOf(path: string)
    ensures IsExtOf(path, Ext(path))
    decreases |path|
  {
    if |path| > 0 {
      var n := |path|;
      var c := path[n - 1];
      var init := path[..n - 1];
      if c == Separator {
        forall k | 0 <= k < n && path[k] == '.'
          ensures Separator in path[k + 1..]
        {
          assert path[k + 1..][n - 1 - (k + 1)] == c;
        }
      } else if c != '.' {
        ExtIsExtOf(init);
        var e := Ext(init);
        if e == "" {
          forall k | 0 <= k < n && path[k] == '.'
            ensures Separator in path[k + 1..]
          {
            assert k < n - 1;
            assert init[k] == '.';
            var j :| j in init[k + 1..] && j == Separator;
            assert init[k + 1..] <= path[k + 1..];
          }
        } else {
          var e' := Ext(path);
          assert e' == e + [c];
          forall k | 0 < k < |e'| ensures e'[k] != '.' && e'[k] != Separator {
            if k < |e| { assert e'[k] == e[k]; }
          }
        }
      }
    }
  }

  /** Any suffix meeting the characterisation is the one Ext returns. */
  lemma ExtUnique(path: string, e: string)
    requires IsExtOf(path, e)
    ensures e == Ext(path)
  {
    ExtIsExtOf(path);
  }

  /**
   * unicode.ToLower restricted to what decides a comparison with ASCII text:
   * the runes whose lower case is an ASCII letter are 'A'..'Z', U+0130
   * (LATIN CAPITAL LETTER I WITH DOT ABOVE, to 'i') and U+212A (KELVIN SIGN,
   * to 'k'); every other rune is kept.
   */
  function ToLowerRune(c: char): char {
    if 'A' <= c <= 'Z' then (c as int + 32) as char
    else if c == '\U{0130}' then 'i'
    else if c == '\U{212A}' then 'k'
    else c
  }

  /** strings.ToLower, rune by rune. */
  function ToLower(s: string): (r: string)
    ensures |r| == |s|
  {
    if s == [] then [] else [ToLowerRune(s[0])] + ToLower(s[1..])
  }

  /** Each rune of the lowered string is the lowered rune. */
  lemma {:induction false} ToLowerAt(s: string, i: nat)
    requires i < |s|
    ensures ToLower(s)[i] == ToLowerRune(s[i])
  {
    if i > 0 {
      ToLowerAt(s[1..], i - 1);
    }
  }

  /** Lowering commutes with dropping a prefix. */
  lemma {:induction false} ToLowerDrop(s: string, j: nat)
    requires j <= |s|
    ensures ToLower(s[j..]) == ToLower(s)[j..]
  {
    if j > 0 {
      assert s[j..] == s[1..][j - 1..];
      assert ToLower(s)[j..] == ToLower(s[1..])[j - 1..];
      ToLowerDrop(s[1..], j - 1);
    }
  }

  /** Lowering neither makes nor removes a '.' or a separator. */
  lemma ToLowerRuneKeepsPunctuation(c: char)
    ensures ToLowerRune(c) == '.' <==> c == '.'
    ensures ToLowerRune(c) == Separator <==> c == Separator
  {
  }

  /** The lowered extension is a suffix of the lowered path. */
  lemma LowerExtIsSuffix(path: string)
    ensures HasSuffix(ToLower(path), ToLower(Ext(path)))
  {
    ToLowerDrop(path, |path| - |Ext(path)|);
  }

  /**
   * A lowered suffix that looks like an extension ('.' followed by no '.'
   * and no separator) is the lowered extension.
   */
  lemma LowerSuffixIsExt(path: string, v: string)
    requires HasSuffix(ToLower(path), v)
    requires |v| > 0 && v[0] == '.'
    requires forall k :: 0 < k < |v| ==> v[k] != '.' && v[k] != Separator
    ensures ToLower(Ext(path)) == v
  {
    var s := path[|path| - |v|..];
    ToLowerDrop(path, |path| - |v|);
    assert ToLower(s) == v;
    ToLowerAt(s, 0);
    ToLowerRuneKeepsPunctuation(s[0]);
    forall k | 0 < k < |s|
      ensures s[k] != '.' && s[k] != Separator
    {
      ToLowerAt(s, k);
      ToLowerRuneKeepsPunctuation(s[k]);
    }
    assert IsExtOf(path, s);
    ExtUnique(path, s);
  }

  /**
   * For a lower-case extension v, the lowered extension of path is v
   * exactly when the lowered path ends in v.
   */
  lemma LowerExtMatches(path: string, v: string)
    requires |v| > 0 && v[0] == '.'
    requires forall k :: 0 < k < |v| ==> v[k] != '.' && v[k] != Separator
    ensures ToLower(Ext(path)) == v <==> HasSuffix(ToLower(path), v)
  {
    LowerExtIsSuffix(path);
    if HasSuffix(ToLower(path), v) {
      LowerSuffixIsExt(path, v);
    }
  }

  /** Lowering leaves nothing to lower: it is idempotent. */
  lemma {:induction false} ToLowerIdempotent(s: string)
    ensures ToLower(ToLower(s)) == ToLower(s)
  {
    if s != [] {
      var t := ToLower(s);
      assert t[0] == ToLowerRune(s[0]) && t[1..] == ToLower(s[1..]);
      ToLowerIdempotent(s[1..]);
    }
  }
}
