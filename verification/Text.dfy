/** The string operations the services rely on: str.split, str.join, prefixes and the code-point order. */
module Text {

  /** str.split with a one-character separator: the empty text has one empty part. */
  function Split(s: string, sep: char): (parts: seq<string>)
    ensures |parts| > 0
  {
    if s == "" then [""]
    else
      var rest := Split(s[1..], sep);
      if s[0] == sep then [""] + rest else [[s[0]] + rest[0]] + rest[1..]
  }

  function Join(parts: seq<string>, sep: char): string
  {
    if |parts| == 0 then ""
    else if |parts| == 1 then parts[0]
    else parts[0] + [sep] + Join(parts[1..], sep)
  }

  predicate StartsWith(s: string, prefix: string) {
    prefix <= s
  }

  predicate EndsWith(s: string, suffix: string) {
    |suffix| <= |s| && s[|s| - |suffix|..] == suffix
  }

  /** Joining the first n parts, with n below the number of parts, gives the text before the n-th separator. */
  lemma {:induction false} JoinedPrefixEndsAtSeparator(s: string, sep: char, n: nat) returns (k: nat)
    requires 1 <= n < |Split(s, sep)|
    ensures k < |s| && s[k] == sep && Join(Split(s, sep)[..n], sep) == s[..k]
  {
    var parts, rest := Split(s, sep), Split(s[1..], sep);
    if s[0] == sep {
      if n == 1 {
        k := 0;
        assert parts[..1] == [""];
      } else {
        var m := JoinedPrefixEndsAtSeparator(s[1..], sep, n - 1);
        k := m + 1;
        assert parts[..n][1..] == rest[..n - 1];
        assert s[..k] == [sep] + s[1..][..m];
      }
    } else {
      var m := JoinedPrefixEndsAtSeparator(s[1..], sep, n);
      k := m + 1;
      assert parts[..n][1..] == rest[..n][1..];
      assert parts[..n][0] == [s[0]] + rest[..n][0];
      assert s[..k] == [s[0]] + s[1..][..m];
    }
  }

  /** Every text before a separator is the join of some of the first parts. */
  lemma {:induction false} PrefixAtSeparatorIsJoined(s: string, sep: char, k: nat) returns (n: nat)
    requires k < |s| && s[k] == sep
    ensures 1 <= n < |Split(s, sep)| && Join(Split(s, sep)[..n], sep) == s[..k]
  {
    var parts, rest := Split(s, sep), Split(s[1..], sep);
    if k == 0 {
      n := 1;
      assert parts[..1] == [""];
    } else {
      var m := PrefixAtSeparatorIsJoined(s[1..], sep, k - 1);
      assert s[..k] == [s[0]] + s[1..][..k - 1];
      if s[0] == sep {
        n := m + 1;
        assert parts[..n][1..] == rest[..m];
      } else {
        n := m;
        assert parts[..n][1..] == rest[..n][1..];
        assert parts[..n][0] == [s[0]] + rest[..n][0];
      }
    }
  }

  /** Code-point order, as Python compares strings. */
  predicate StrLe(a: string, b: string) {
    a == "" || (b != "" && (a[0] < b[0] || (a[0] == b[0] && StrLe(a[1..], b[1..]))))
  }

  lemma {:induction false} StrLeTotal(a: string, b: string)
    ensures StrLe(a, b) || StrLe(b, a)
  {
    if a != "" && b != "" {
      StrLeTotal(a[1..], b[1..]);
    }
  }

  lemma {:induction false} StrLeAntisymmetric(a: string, b: string)
    requires StrLe(a, b) && StrLe(b, a)
    ensures a == b
  {
    if a != "" && b != "" {
      StrLeAntisymmetric(a[1..], b[1..]);
      assert a == [a[0]] + a[1..] && b == [b[0]] + b[1..];
    }
  }

  lemma {:induction false} StrLeTransitive(a: string, b: string, c: string)
    requires StrLe(a, b) && StrLe(b, c)
    ensures StrLe(a, c)
  {
    if a != "" && a[0] == b[0] && b[0] == c[0] {
      StrLeTransitive(a[1..], b[1..], c[1..]);
    }
  }
}
