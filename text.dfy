/** The string operations the handlers apply to user input: Rust's
    `str::trim` and `str::to_lowercase`, and substring containment. */
module Text {

  /** Rust's `char::is_whitespace`: the Unicode White_Space property. */
  predicate IsWhitespace(c: char) {
    ('\t' <= c <= '\r') || c == ' ' || c == '\U{85}' || c == '\U{A0}'
    || c == '\U{1680}' || ('\U{2000}' <= c <= '\U{200A}') || c == '\U{2028}'
    || c == '\U{2029}' || c == '\U{202F}' || c == '\U{205F}' || c == '\U{3000}'
  }

  /** `s` without its leading whitespace: the longest suffix of `s` that does
      not start with whitespace. */
  function TrimStart(s: string): (r: string)
    ensures |r| <= |s|
    ensures r == [] || !IsWhitespace(r[0])
  {
    if s != [] && IsWhitespace(s[0]) then TrimStart(s[1..]) else s
  }

  /** What `TrimStart` removes is a whitespace prefix. */
  lemma {:induction false} TrimStartRemovesWhitespacePrefix(s: string)
    ensures var r := TrimStart(s);
      && r == s[|s| - |r|..]
      && forall i :: 0 <= i < |s| - |r| ==> IsWhitespace(s[i])
  {
    if s != [] && IsWhitespace(s[0]) {
      TrimStartRemovesWhitespacePrefix(s[1..]);
      var r := TrimStart(s);
      forall i | 1 <= i < |s| - |r| ensures IsWhitespace(s[i]) {
        assert s[i] == s[1..][i - 1];
      }
    }
  }

  /** `s` without its trailing whitespace: the longest prefix of `s` that does
      not end with whitespace. */
  function TrimEnd(s: string): (r: string)
    ensures |r| <= |s|
    ensures r == [] || !IsWhitespace(r[|r| - 1])
  {
    if s != [] && IsWhitespace(s[|s| - 1]) then TrimEnd(s[..|s| - 1]) else s
  }

  /** What `TrimEnd` removes is a whitespace suffix. */
  lemma {:induction false} TrimEndRemovesWhitespaceSuffix(s: string)
    ensures var r := TrimEnd(s);
      && r == s[..|r|]
      && forall i :: |r| <= i < |s| ==> IsWhitespace(s[i])
  {
    if s != [] && IsWhitespace(s[|s| - 1]) {
      TrimEndRemovesWhitespaceSuffix(s[..|s| - 1]);
      var r := TrimEnd(s);
      forall i | |r| <= i < |s| - 1 ensures IsWhitespace(s[i]) {
        assert s[i] == s[..|s| - 1][i];
      }
    }
  }

  /** `str::trim`: whitespace removed from both ends. */
  function Trim(s: string): (r: string)
    ensures |r| <= |s|
    ensures r == [] || (!IsWhitespace(r[0]) && !IsWhitespace(r[|r| - 1]))
  {
    TrimEndRemovesWhitespaceSuffix(TrimStart(s));
    TrimEnd(TrimStart(s))
  }

  /** `str::trim` returns the slice of `s` between its leading and its
      trailing whitespace. */
  lemma TrimIsSlice(s: string)
    ensures exists i, j ::
              && 0 <= i <= j <= |s| && Trim(s) == s[i..j]
              && (forall k :: 0 <= k < i ==> IsWhitespace(s[k]))
              && (forall k :: j <= k < |s| ==> IsWhitespace(s[k]))
  {
    var t := TrimStart(s);
    TrimStartRemovesWhitespacePrefix(s);
    TrimEndRemovesWhitespaceSuffix(t);
    var i := |s| - |t|;
    var j := i + |Trim(s)|;
    assert Trim(s) == s[i..j];
    forall k | j <= k < |s| ensures IsWhitespace(s[k]) {
      assert s[k] == t[k - i];
    }
  }

  /** A string that has no whitespace at either end is its own trim. */
  lemma {:induction false} TrimOfTrimmed(s: string)
    requires s == [] || (!IsWhitespace(s[0]) && !IsWhitespace(s[|s| - 1]))
    ensures Trim(s) == s
  {
  }

  /** Trimming is idempotent. */
  lemma TrimIdempotent(s: string)
    ensures Trim(Trim(s)) == Trim(s)
  {
    TrimOfTrimmed(Trim(s));
  }

  /** A string of whitespace only (the empty string included) trims to "". */
  lemma {:induction false} TrimAllWhitespace(s: string)
    requires forall i :: 0 <= i < |s| ==> IsWhitespace(s[i])
    ensures Trim(s) == ""
  {
    if s != [] {
      assert IsWhitespace(s[0]);
      assert forall i :: 0 <= i < |s[1..]| ==> IsWhitespace(s[1..][i]) by {
        forall i | 0 <= i < |s[1..]| ensures IsWhitespace(s[1..][i]) {
          assert s[1..][i] == s[i + 1];
        }
      }
      TrimAllWhitespace(s[1..]);
    }
  }

  /** The lower-case form of one character. Only ASCII letters are mapped. */
  function LowerChar(c: char): (r: char)
    ensures !('A' <= r <= 'Z')
  {
    if 'A' <= c <= 'Z' then (c as int + 32) as char else c
  }

  /** `str::to_lowercase` on ASCII letters. */
  function ToLower(s: string): (r: string)
    ensures |r| == |s|
  {
    seq(|s|, i requires 0 <= i < |s| => LowerChar(s[i]))
  }

  /** Lower-casing leaves no upper-case letter, turns each upper-case letter
      into its lower-case partner, and keeps every other character in place. */
  lemma ToLowerMeaning(s: string)
    ensures var r := ToLower(s);
      && (forall i :: 0 <= i < |r| ==> !('A' <= r[i] <= 'Z'))
      && (forall i :: 0 <= i < |s| && 'A' <= s[i] <= 'Z' ==> r[i] as int == s[i] as int + 32)
      && (forall i :: 0 <= i < |s| && !('A' <= s[i] <= 'Z') ==> r[i] == s[i])
  {
  }

  /** A string with no upper-case ASCII letter is already lower case. */
  lemma ToLowerOfLower(s: string)
    requires forall i :: 0 <= i < |s| ==> !('A' <= s[i] <= 'Z')
    ensures ToLower(s) == s
  {
  }

  /** Lower-casing is idempotent. */
  lemma ToLowerIdempotent(s: string)
    ensures ToLower(ToLower(s)) == ToLower(s)
  {
    ToLowerOfLower(ToLower(s));
  }

  /** The form in which answers and shell commands are compared:
      `input.trim().to_lowercase()`. */
  function Normalize(s: string): (r: string)
    ensures |r| <= |s|
  {
    ToLower(Trim(s))
  }

  /** Normalising is idempotent. */
  lemma NormalizeIdempotent(s: string)
    ensures Normalize(Normalize(s)) == Normalize(s)
  {
    var t := Trim(s);
    var l := ToLower(t);
    assert l == [] || (!IsWhitespace(l[0]) && !IsWhitespace(l[|l| - 1]));
    TrimOfTrimmed(l);
    ToLowerOfLower(l);
  }

  /** Only the empty string normalises to the empty string after trimming:
      `s` normalises to "" exactly when it is whitespace only. */
  lemma NormalizeEmpty(s: string)
    ensures Normalize(s) == "" <==> forall i :: 0 <= i < |s| ==> IsWhitespace(s[i])
  {
    if forall i :: 0 <= i < |s| ==> IsWhitespace(s[i]) {
      TrimAllWhitespace(s);
    } else {
      var t := TrimStart(s);
      TrimStartRemovesWhitespacePrefix(s);
      TrimEndRemovesWhitespaceSuffix(t);
      assert t != [] && !IsWhitespace(t[0]);
      assert TrimEnd(t) != [];
    }
  }

  /** `t` occurs in `s` starting at index `i`. */
  predicate ContainsAt(s: string, t: string, i: int) {
    0 <= i && i + |t| <= |s| && s[i..i + |t|] == t
  }

  /** `t` occurs in `s`: Rust's `str::contains`. */
  ghost predicate Contains(s: string, t: string) {
    exists i :: ContainsAt(s, t, i)
  }

  /** The middle part of a concatenation occurs in it. */
  lemma ContainsMiddle(pre: string, t: string, post: string)
    ensures ContainsAt(pre + t + post, t, |pre|)
  {
    assert (pre + t + post)[|pre|..|pre| + |t|] == t;
  }
}
