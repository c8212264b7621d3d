/**
 The two parts of `pathlib.PurePosixPath` that decide whether an attachment
 is printed: the final component `.name` and its `.suffix`.
 */
module PurePath {
  import opened PyStr

  /** `PurePosixPath(p).name`: the last component of `p`, where components
      are separated by '/' and the empty components (repeated, leading or
      trailing slashes) and the '.' components do not count; "" when no
      component is left. */
  function Name(p: string): string
    decreases |p|
  {
    var j := RFind(p, '/');
    var last := p[j + 1..];
    if last != "" && last != "." then last
    else if j < 0 then ""
    else Name(p[..j])
  }

  /** `PurePath.suffix` of a final component: the text from its last dot,
      provided that dot is neither the first nor the last character of the
      name; "" otherwise. */
  function Suffix(name: string): string {
    var i := RFind(name, '.');
    if 0 < i < |name| - 1 then name[i..] else ""
  }

  /** A non-empty suffix is a dot followed by at least one dot-free
      character, and a proper ending of the name. */
  lemma SuffixShape(name: string)
    ensures var r := Suffix(name);
      r != "" ==> 2 <= |r| < |name| && r[0] == '.' && '.' !in r[1..] && name[|name| - |r|..] == r
  {
    RFindSpec(name, '.');
  }

  /** A suffix shaped like ".png" is the suffix of a name exactly when the name
      ends with it and has at least one character before it. */
  lemma SuffixIs(name: string, e: string)
    requires 2 <= |e| && e[0] == '.' && '.' !in e[1..]
    ensures Suffix(name) == e <==> |name| > |e| && name[|name| - |e|..] == e
  {
    if |name| > |e| && name[|name| - |e|..] == e {
      var i := |name| - |e|;
      assert name[i] == '.';
      forall j | i < j < |name|
        ensures name[j] != '.'
      {
        assert name[j] == e[1..][j - i - 1];
      }
      RFindIsLast(name, '.', i);
    }
    RFindSpec(name, '.');
  }

  /** `RFind` returns the position of a `c` after which no `c` follows. */
  lemma RFindIsLast(s: string, c: char, i: nat)
    requires i < |s| && s[i] == c
    requires forall j :: i < j < |s| ==> s[j] != c
    ensures RFind(s, c) == i
  {
    RFindSpec(s, c);
  }

  /** A file name in a directory is its own `.name`: for a component that is
      neither "" nor "." and has no slash, `Name(dir + "/" + n) == n`. */
  lemma NameOfChild(dir: string, n: string)
    requires '/' !in n && n != "" && n != "."
    ensures Name(dir + "/" + n) == n
    ensures Name(n) == n
  {
    var p := dir + "/" + n;
    RFindIsLast(p, '/', |dir|);
    assert p[|dir| + 1..] == n;
    RFindSpec(n, '/');
  }
}
