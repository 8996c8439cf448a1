/**
 * POSIX `os.path` operations the scripts use to build file names:
 * `splitext`, `split(...)[1]` and `join`.
 */
module PyPath {

  /** `s.rfind(c)`: index of the last occurrence of c, or -1. */
  function RFind(s: string, c: char): (r: int)
    ensures -1 <= r < |s|
  {
    if |s| == 0 then -1
    else if s[|s| - 1] == c then |s| - 1
    else RFind(s[..|s| - 1], c)
  }

  /** rfind finds an occurrence of c, and there is none after it. */
  lemma {:induction false} RFindLast(s: string, c: char)
    ensures RFind(s, c) >= 0 ==> s[RFind(s, c)] == c
    ensures forall k :: RFind(s, c) < k < |s| ==> s[k] != c
  {
    if |s| > 0 && s[|s| - 1] != c {
      RFindLast(s[..|s| - 1], c);
    }
  }

  /** The last occurrence is determined by the text: any c with no c after it is it. */
  lemma {:induction false} RFindAt(s: string, c: char, k: int)
    requires 0 <= k < |s| && s[k] == c
    requires forall j :: k < j < |s| ==> s[j] != c
    ensures RFind(s, c) == k
  {
    if s[|s| - 1] != c {
      RFindAt(s[..|s| - 1], c, k);
    }
  }

  /** A string without c has no last occurrence of it. */
  lemma {:induction false} RFindAbsent(s: string, c: char)
    requires c !in s
    ensures RFind(s, c) == -1
  {
    if |s| > 0 {
      RFindAbsent(s[..|s| - 1], c);
    }
  }

  /** Some character strictly between lo and hi is not a dot. */
  predicate HasNonDot(p: string, lo: int, hi: int)
    requires 0 <= lo && hi <= |p|
  {
    exists k :: lo <= k < hi && p[k] != '.'
  }

  /**
   * `os.path.splitext(p)`: the extension runs from the last dot of the last
   * path component, unless everything before that dot in the component is
   * dots (so `.bashrc` has no extension).
   */
  function SplitExt(p: string): (string, string)
  {
    var sepIndex := RFind(p, '/');
    var dotIndex := RFind(p, '.');
    if dotIndex > sepIndex && HasNonDot(p, sepIndex + 1, dotIndex) then
      (p[..dotIndex], p[dotIndex..])
    else (p, "")
  }

  /**
   * splitext cuts p in two: the root and an extension that is empty or a
   * dot followed by neither a '/' nor another dot.
   */
  lemma SplitExtParts(p: string)
    ensures SplitExt(p).0 + SplitExt(p).1 == p
    ensures var e := SplitExt(p).1; e == "" || (e[0] == '.' && '/' !in e && '.' !in e[1..])
  {
    var sepIndex := RFind(p, '/');
    var dotIndex := RFind(p, '.');
    RFindLast(p, '/');
    RFindLast(p, '.');
    if dotIndex > sepIndex && HasNonDot(p, sepIndex + 1, dotIndex) {
      var e := p[dotIndex..];
      assert forall k :: 0 <= k < |e| ==> e[k] == p[dotIndex + k];
      assert p[..dotIndex] + e == p;
    }
  }

  /**
   * splitext finds an extension exactly when the last path component holds a
   * dot somewhere after a character that is not a dot.
   */
  lemma SplitExtFindsExtension(p: string)
    ensures SplitExt(p).1 != "" <==>
      exists i, j :: RFind(p, '/') < i < j < |p| && p[i] != '.' && p[j] == '.'
  {
    var sepIndex := RFind(p, '/');
    var dotIndex := RFind(p, '.');
    RFindLast(p, '.');
    if exists i, j :: sepIndex < i < j < |p| && p[i] != '.' && p[j] == '.' {
      var i, j :| sepIndex < i < j < |p| && p[i] != '.' && p[j] == '.';
      assert dotIndex >= j;
      assert HasNonDot(p, sepIndex + 1, dotIndex);
    }
    if SplitExt(p).1 != "" {
      var k :| sepIndex + 1 <= k < dotIndex && p[k] != '.';
      assert sepIndex < k < dotIndex < |p| && p[k] != '.' && p[dotIndex] == '.';
    }
  }

  /** `os.path.split(p)[1]`: the last path component. */
  function Tail(p: string): (r: string)
    ensures '/' !in r
    ensures |r| <= |p| && p[|p| - |r|..] == r
    ensures |r| == |p| || p[|p| - |r| - 1] == '/'
  {
    var i := RFind(p, '/') + 1;
    RFindLast(p, '/');
    assert forall k :: 0 <= k < |p[i..]| ==> p[i..][k] == p[i + k];
    p[i..]
  }

  /** The last component of `dir + name` is name when dir is empty or ends in '/'. */
  lemma TailOf(dir: string, name: string)
    requires dir == "" || dir[|dir| - 1] == '/'
    requires '/' !in name
    ensures Tail(dir + name) == name
  {
    var p := dir + name;
    if dir == "" {
      assert p == name;
      RFindAbsent(p, '/');
    } else {
      assert forall j :: |dir| - 1 < j < |p| ==> p[j] == name[j - |dir|];
      RFindAt(p, '/', |dir| - 1);
      assert p[|dir|..] == name;
    }
  }

  /**
   * `os.path.join(a, b)`: an absolute b replaces a; otherwise b is appended
   * after a separating '/' unless a is empty or already ends in one.
   */
  function Join(a: string, b: string): string
  {
    if b != "" && b[0] == '/' then b
    else if a == "" || a[|a| - 1] == '/' then a + b
    else a + "/" + b
  }

  /** join ends with b; it starts with a unless b is absolute, and is b when it is. */
  lemma JoinShape(a: string, b: string)
    ensures var r := Join(a, b); |b| <= |r| && r[|r| - |b|..] == b
    ensures var r := Join(a, b); (b == "" || b[0] != '/') ==> |a| <= |r| && r[..|a|] == a
    ensures (b != "" && b[0] == '/') ==> Join(a, b) == b
  {
    var r := Join(a, b);
    if !(b != "" && b[0] == '/') {
      if a == "" || a[|a| - 1] == '/' {
        assert r == a + b;
      } else {
        assert r == a + "/" + b;
      }
    }
  }

  /** Joining a relative name onto a directory that ends in '/' is concatenation. */
  lemma JoinRelative(a: string, b: string)
    requires a != "" && a[|a| - 1] == '/'
    requires b == "" || b[0] != '/'
    ensures Join(a, b) == a + b
  {
  }
}
