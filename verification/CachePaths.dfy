/** Where the daemon caches the output of a process (src/daemon/state.rs). Host names, ids
    and paths are the bytes of their UTF-8 form. */
module CachePaths {
  import opened Common

  type Text = seq<byte>

  const SLASH: byte := 47
  const PERCENT: byte := 37
  const PREFIX: Text := [99, 45]   // "c-"

  predicate Plain(b: byte) {
    || 'A' as int <= b <= 'Z' as int
    || 'a' as int <= b <= 'z' as int
    || '0' as int <= b <= '9' as int
    || b == '.' as int || b == '_' as int || b == '-' as int
  }

  function HexDigit(v: nat): (c: byte)
    requires v < 16
    ensures Plain(c)
  {
    if v < 10 then '0' as int + v else 'a' as int + (v - 10)
  }

  function HexValue(c: byte): nat {
    if '0' as int <= c <= '9' as int then c - '0' as int
    else if 'a' as int <= c <= 'f' as int then c - 'a' as int + 10
    else 0
  }

  function Escape(b: byte): Text {
    if Plain(b) then [b] else [PERCENT, HexDigit(b / 16), HexDigit(b % 16)]
  }

  function Escaped(s: Text): Text {
    if s == [] then [] else Escape(s[0]) + Escaped(s[1..])
  }

  function Component(s: Text): Text {
    PREFIX + Escaped(s)
  }

  lemma {:induction false} EscapedSnoc(s: Text, b: byte)
    ensures Escaped(s + [b]) == Escaped(s) + Escape(b)
  {
    if s == [] {
      assert s + [b] == [b];
      assert Escaped([b]) == Escape(b) + Escaped([]);
    } else {
      assert (s + [b])[1..] == s[1..] + [b];
      EscapedSnoc(s[1..], b);
      Assoc(Escape(s[0]), Escaped(s[1..]), Escape(b));
    }
  }

  method SafePathComponent(input: Text) returns (out: Text)
    ensures out == Component(input)
  {
    out := PREFIX;
    var i := 0;
    while i < |input|
      invariant 0 <= i <= |input| && out == PREFIX + Escaped(input[..i])
    {
      EscapedSnoc(input[..i], input[i]);
      assert input[..i] + [input[i]] == input[..i + 1];
      Assoc(PREFIX, Escaped(input[..i]), Escape(input[i]));
      out := out + Escape(input[i]);
      i := i + 1;
    }
    assert input[..i] == input;
  }

  // ---- One path component, and only for this name ----------------------------

  /** Reads an escaped name back. */
  function Unescaped(t: Text): Text {
    if t == [] then []
    else if t[0] == PERCENT && |t| >= 3 then [(HexValue(t[1]) * 16 + HexValue(t[2])) % 256] + Unescaped(t[3..])
    else [t[0]] + Unescaped(t[1..])
  }

  lemma HexReadBack(b: byte)
    ensures HexValue(HexDigit(b / 16)) * 16 + HexValue(HexDigit(b % 16)) == b
  {
  }

  lemma {:induction false} UnescapedEscaped(s: Text)
    ensures Unescaped(Escaped(s)) == s
  {
    if s != [] {
      var t := Escaped(s);
      UnescapedEscaped(s[1..]);
      HexReadBack(s[0]);
      if Plain(s[0]) {
        assert t[1..] == Escaped(s[1..]);
      } else {
        assert t[3..] == Escaped(s[1..]);
      }
    }
  }

  lemma {:induction false} EscapedIsPlain(s: Text)
    ensures forall i :: 0 <= i < |Escaped(s)| ==> Plain(Escaped(s)[i]) || Escaped(s)[i] == PERCENT
  {
    if s != [] {
      EscapedIsPlain(s[1..]);
    }
  }

  /** A component names no other directory, does not leave its parent, and belongs to one name. */
  lemma ComponentSafe(s: Text)
    ensures SLASH !in Component(s) && 0 !in Component(s)
    ensures Component(s) != [] && Component(s) != ['.' as int] && Component(s) != ['.' as int, '.' as int]
  {
    EscapedIsPlain(s);
    assert Component(s)[0] == 99;
  }

  /** A name stays readable exactly if it has only ASCII letters, digits, dots, underscores and dashes. */
  lemma {:induction false} KeptExactly(s: Text)
    ensures Escaped(s) == s <==> forall b :: b in s ==> Plain(b)
    ensures Unsafe(s) > 0 <==> exists b :: b in s && !Plain(b)
    ensures |Escaped(s)| == |s| + 2 * Unsafe(s)
  {
    if s != [] {
      KeptExactly(s[1..]);
      assert s == [s[0]] + s[1..];
      if Plain(s[0]) {
        assert Escaped(s)[1..] == Escaped(s[1..]);
      }
    }
  }

  lemma {:induction false} EscapedAppend(a: Text, b: Text)
    ensures Escaped(a + b) == Escaped(a) + Escaped(b)
  {
    if a == [] {
      assert a + b == b;
    } else {
      assert (a + b)[1..] == a[1..] + b;
      EscapedAppend(a[1..], b);
      Assoc(Escape(a[0]), Escaped(a[1..]), Escaped(b));
    }
  }

  /** `../host` becomes `c-..%2fhost`. */
  lemma UpwardsEscaped(name: Text)
    requires forall b :: b in name ==> Plain(b)
    ensures Component([46, 46, SLASH] + name) == PREFIX + [46, 46, PERCENT, 50, 102] + name
  {
    var up: Text := [46, 46];
    EscapedAppend(up, [SLASH]);
    EscapedAppend(up + [SLASH], name);
    assert up + [SLASH] == [46, 46, SLASH];
    KeptExactly(name);
    KeptExactly(up);
    assert Escaped([SLASH]) == [PERCENT, 50, 102] by { assert Escaped([SLASH]) == Escape(SLASH) + []; }
    hide Escaped, Escape;
  }

  function Unsafe(s: Text): nat {
    if s == [] then 0 else (if Plain(s[0]) then 0 else 1) + Unsafe(s[1..])
  }

  lemma ComponentInjective(s: Text, t: Text)
    requires Component(s) == Component(t)
    ensures s == t
  {
    assert Component(s)[2..] == Escaped(s) && Component(t)[2..] == Escaped(t);
    UnescapedEscaped(s);
    UnescapedEscaped(t);
  }

  // ---- Paths -----------------------------------------------------------------

  /** `Path::join`: an absolute second part replaces the first. */
  function Join(base: Text, part: Text): Text {
    if part != [] && part[0] == SLASH then part
    else if base == [] || base[|base| - 1] == SLASH then base + part
    else base + [SLASH] + part
  }

  function HostDir(base: Text, host: Text): Text {
    Join(base, Component(host))
  }

  function LocalDir(base: Text, host: Text, id: Text): Text {
    Join(HostDir(base, host), Component(id))
  }

  /** The files kept for one process. */
  datatype Name = Stdout | Stderr | Status {
    function Text(): (t: Text)
      ensures SLASH !in t && t != []
    {
      match this
      case Stdout => [115, 116, 100, 111, 117, 116]
      case Stderr => [115, 116, 100, 101, 114, 114]
      case Status => [115, 116, 97, 116, 117, 115]
    }
  }

  function CacheFile(base: Text, host: Text, id: Text, name: Name): Text {
    Join(LocalDir(base, host, id), name.Text())
  }

  /** `path` is strictly below `dir`. */
  predicate Below(path: Text, dir: Text) {
    dir + [SLASH] < path
  }

  lemma JoinComponent(base: Text, s: Text)
    ensures Join(base, Component(s)) == Join(base, []) + Component(s)
    ensures Join(base, Component(s)) != []
    ensures Join(base, Component(s))[|Join(base, Component(s))| - 1] != SLASH
  {
    ComponentSafe(s);
    var c := Component(s);
    var j := Join(base, c);
    assert j[|j| - 1] == c[|c| - 1];
    assert c[|c| - 1] in c;
    assert base + [SLASH] + [] == base + [SLASH] && base + [] == base;
  }

  /** Every part of a cache file's path, spelled out. */
  lemma CacheFileParts(base: Text, host: Text, id: Text, name: Name)
    ensures CacheFile(base, host, id, name)
            == Join(base, []) + (Component(host) + [SLASH] + (Component(id) + [SLASH] + name.Text()))
    ensures HostDir(base, host) == Join(base, []) + Component(host)
  {
    JoinComponent(base, host);
    JoinComponent(HostDir(base, host), id);
    var root, h, i, n := Join(base, []), Component(host), Component(id), name.Text();
    assert HostDir(base, host) == root + h;
    assert LocalDir(base, host, id) == root + h + [SLASH] + i;
    assert CacheFile(base, host, id, name) == root + h + [SLASH] + i + [SLASH] + n;
    hide Join, Component, CacheFile, LocalDir, HostDir;
    Regroup(root, h, i, n);
  }

  lemma Regroup(root: Text, h: Text, i: Text, n: Text)
    ensures root + h + [SLASH] + i + [SLASH] + n == root + (h + [SLASH] + (i + [SLASH] + n))
  {
  }

  /** Up to its first separator a path has only one reading. */
  lemma FirstPart(a: Text, x: Text, b: Text, y: Text)
    requires a + [SLASH] + x == b + [SLASH] + y && SLASH !in a && SLASH !in b
    ensures a == b && x == y
  {
    var p := a + [SLASH] + x;
    assert p[|a|] == SLASH && p[|b|] == SLASH;
    assert forall k :: 0 <= k < |a| ==> p[k] == a[k];
    assert forall k :: 0 <= k < |b| ==> p[k] == b[k];
    assert a == p[..|a|] && b == p[..|b|];
    assert x == p[|a| + 1..] && y == p[|b| + 1..];
  }

  lemma SameFront(root: Text, x: Text, y: Text)
    requires root + x == root + y
    ensures x == y
  {
    assert x == (root + x)[|root|..] && y == (root + y)[|root|..];
  }

  /** Two processes, or two files of one, never share a cache file. */
  lemma CacheFilesDistinct(base: Text, h1: Text, i1: Text, n1: Name, h2: Text, i2: Text, n2: Name)
    requires CacheFile(base, h1, i1, n1) == CacheFile(base, h2, i2, n2)
    ensures h1 == h2 && i1 == i2 && n1 == n2
  {
    CacheFileParts(base, h1, i1, n1);
    CacheFileParts(base, h2, i2, n2);
    ComponentSafe(h1);
    ComponentSafe(h2);
    ComponentSafe(i1);
    ComponentSafe(i2);
    var r1, r2 := Component(i1) + [SLASH] + n1.Text(), Component(i2) + [SLASH] + n2.Text();
    hide Component, CacheFile;
    SameFront(Join(base, []), Component(h1) + [SLASH] + r1, Component(h2) + [SLASH] + r2);
    FirstPart(Component(h1), r1, Component(h2), r2);
    FirstPart(Component(i1), n1.Text(), Component(i2), n2.Text());
    ComponentInjective(h1, h2);
    ComponentInjective(i1, i2);
    assert n1.Text()[3] == n2.Text()[3];
  }

  /** A cache file lies below the directory of its own host, and of no other. */
  lemma BelowItsHost(base: Text, host: Text, id: Text, name: Name, other: Text)
    ensures Below(CacheFile(base, host, id, name), HostDir(base, other)) <==> host == other
  {
    CacheFileParts(base, host, id, name);
    CacheFileParts(base, other, id, name);
    ComponentSafe(host);
    ComponentSafe(other);
    var root, rest := Join(base, []), Component(id) + [SLASH] + name.Text();
    var path, dir := CacheFile(base, host, id, name), HostDir(base, other);
    hide Component, CacheFile, HostDir, Join;
    if host == other {
      assert path == dir + [SLASH] + rest;
    }
    if dir + [SLASH] < path {
      var tail := path[|dir| + 1..];
      assert path == dir + [SLASH] + tail;
      assert path == root + (Component(other) + [SLASH] + tail);
      SameFront(root, Component(host) + [SLASH] + rest, Component(other) + [SLASH] + tail);
      FirstPart(Component(host), rest, Component(other), tail);
      ComponentInjective(host, other);
    }
  }
}
