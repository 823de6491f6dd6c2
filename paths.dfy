/** The part of pathlib the reward modules rely on, over strings: joining a directory name and
    a file name, and reading back a path's parent, name and stem.

    Paths are taken in pathlib's normal form (no empty or "." components, no trailing "/"),
    where `str(Path(name) / child)` is the plain concatenation `name + "/" + child`. */
module Paths {
  import opened PyStr

  /** The index of the last `c` among the first `n` characters of `s`, or -1. */
  function LastIndexBelow(s: string, c: char, n: nat): (r: int)
    requires n <= |s|
    ensures -1 <= r < n
    ensures r >= 0 ==> s[r] == c
  {
    if n == 0 then -1
    else if s[n - 1] == c then n - 1
    else LastIndexBelow(s, c, n - 1)
  }

  /** The index of the last `c` in `s`, or -1. */
  function LastIndex(s: string, c: char): (r: int)
    ensures -1 <= r < |s|
    ensures r >= 0 ==> s[r] == c
  {
    LastIndexBelow(s, c, |s|)
  }

  /** No `c` follows the index `LastIndex` returns. */
  lemma LastIndexIsLast(s: string, c: char)
    ensures forall k :: LastIndex(s, c) < k < |s| ==> s[k] != c
  {
    LastIndexBelowIsLast(s, c, |s|);
  }

  lemma {:induction false} LastIndexBelowIsLast(s: string, c: char, n: nat)
    requires n <= |s|
    ensures forall k :: LastIndexBelow(s, c, n) < k < n ==> s[k] != c
  {
    if n > 0 && s[n - 1] != c {
      LastIndexBelowIsLast(s, c, n - 1);
    }
  }

  /** `str(Path(name) / child)`. */
  function Joined(name: string, child: string): string {
    name + "/" + child
  }

  /** `str(Path(p).parent)`: everything before the last "/", "/" for a top-level absolute
      path, "." for a bare name. */
  function Parent(p: string): string {
    var i := LastIndex(p, '/');
    if i < 0 then "." else if i == 0 then "/" else p[..i]
  }

  /** `Path(p).name`: everything after the last "/". */
  function NameOf(p: string): (r: string)
    ensures '/' !in r
  {
    if p == [] || p[|p| - 1] == '/' then []
    else NameOf(p[..|p| - 1]) + [p[|p| - 1]]
  }

  /** `Path(p).stem`: the name without its last suffix; a dot that starts or ends the name
      does not begin a suffix. */
  function Stem(p: string): string {
    var name := NameOf(p);
    var d := LastIndex(name, '.');
    if 0 < d < |name| - 1 then name[..d] else name
  }

  /** Reading back a joined path gives the directory name and the file name. */
  lemma JoinedParts(name: string, child: string)
    requires name != [] && '/' !in child
    ensures Parent(Joined(name, child)) == name
    ensures NameOf(Joined(name, child)) == child
  {
    var p := Joined(name, child);
    assert p[|name|] == '/';
    forall k | |name| < k < |p|
      ensures p[k] != '/'
    {
      assert p[k] == child[k - |name| - 1];
    }
    LastIndexIs(p, '/', |name|);
    assert p[..|name|] == name;
    NameAfterSlash(name + "/", child);
  }

  /** The name of a path is what follows its last "/". */
  lemma {:induction false} NameAfterSlash(dir: string, child: string)
    requires dir != [] && dir[|dir| - 1] == '/' && '/' !in child
    ensures NameOf(dir + child) == child
    decreases |child|
  {
    if child != [] {
      var init := child[..|child| - 1];
      assert (dir + child)[..|dir + child| - 1] == dir + init;
      assert '/' !in init by {
        assert forall x :: x in init ==> x in child;
      }
      NameAfterSlash(dir, init);
      assert child == init + [child[|child| - 1]];
    } else {
      assert dir + child == dir;
    }
  }

  /** `LastIndex` is characterised by its contract. */
  lemma LastIndexIs(s: string, c: char, i: int)
    requires 0 <= i < |s| && s[i] == c
    requires forall k :: i < k < |s| ==> s[k] != c
    ensures LastIndex(s, c) == i
  {
    LastIndexBelowIs(s, c, |s|, i);
  }

  lemma {:induction false} LastIndexBelowIs(s: string, c: char, n: nat, i: int)
    requires n <= |s| && 0 <= i < n && s[i] == c
    requires forall k :: i < k < n ==> s[k] != c
    ensures LastIndexBelow(s, c, n) == i
  {
    if i < n - 1 {
      LastIndexBelowIs(s, c, n - 1, i);
    }
  }

  /** `LastIndex` is -1 when the character does not occur. */
  lemma LastIndexAbsent(s: string, c: char)
    requires c !in s
    ensures LastIndex(s, c) == -1
  {
    LastIndexBelowAbsent(s, c, |s|);
  }

  lemma {:induction false} LastIndexBelowAbsent(s: string, c: char, n: nat)
    requires n <= |s| && c !in s
    ensures LastIndexBelow(s, c, n) == -1
  {
    if n > 0 {
      assert s[n - 1] in s;
      LastIndexBelowAbsent(s, c, n - 1);
    }
  }

  /** A file name without a dot is its own stem. */
  lemma StemOfJoined(name: string, child: string)
    requires name != [] && '/' !in child && '.' !in child
    ensures Stem(Joined(name, child)) == child
  {
    JoinedParts(name, child);
    LastIndexAbsent(child, '.');
  }

  /** Decimal numerals contain neither "/", "." nor "-" when non-negative. */
  lemma NumeralChars(n: int)
    ensures '/' !in IntToString(n) && '.' !in IntToString(n)
    ensures n >= 0 ==> '-' !in IntToString(n)
  {
    var s := IntToString(n);
    if n >= 0 {
      assert forall i :: 0 <= i < |s| ==> '0' <= s[i] <= '9';
    } else {
      var t := s[1..];
      assert IsDigits(t);
      forall i | 1 <= i < |s|
        ensures '0' <= s[i] <= '9'
      {
        assert s[i] == t[i - 1];
      }
    }
  }
}
