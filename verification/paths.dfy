/** POSIX path handling as the uploader and the video loader use it:
    `os.path.join` (posixpath) and pathlib's `PurePath.name` / `PurePath.suffix`.
    Paths are plain strings; no file system is consulted here. */
module Paths {
  import opened Text

  predicate IsAbsolute(p: string) {
    StartsWith(p, "/")
  }

  /** `os.path.join(a, b)`: an absolute `b` replaces `a`; otherwise `b` is
      appended, with a '/' in between unless `a` is empty or already ends in one. */
  function Join(a: string, b: string): (r: string)
    ensures IsAbsolute(b) ==> r == b
    ensures !IsAbsolute(b) ==> StartsWith(r, a) && EndsWith(r, b) && |r| <= |a| + 1 + |b|
    ensures !IsAbsolute(b) && (a == "" || EndsWith(a, "/")) ==> r == a + b
    ensures !IsAbsolute(b) && a != "" && !EndsWith(a, "/") ==> r == a + "/" + b && r[|a|] == '/'
  {
    if IsAbsolute(b) then b
    else if a == "" || a[|a| - 1] == '/' then a + b
    else a + "/" + b
  }

  /** Joining onto the same directory loses nothing: two components of the
      same kind (both absolute or both relative) that join to the same path are
      the same component. */
  lemma JoinCancel(a: string, x: string, y: string)
    requires IsAbsolute(x) == IsAbsolute(y)
    requires Join(a, x) == Join(a, y)
    ensures x == y
  {
    if !IsAbsolute(x) {
      var sep := if a == "" || a[|a| - 1] == '/' then "" else "/";
      assert Join(a, x) == (a + sep) + x;
      assert Join(a, y) == (a + sep) + y;
      assert x == Join(a, x)[|a + sep|..];
    }
  }

  /** `PurePath(p).name`: the last component that is neither empty nor ".",
      so trailing slashes and "." components are skipped, or "" when there is
      none (for "", "." and "/"). */
  function PathName(p: string): (r: string)
    ensures '/' !in r
    ensures r != "."
    ensures |r| <= |p|
    decreases |p|
  {
    var last := AfterLast(p, '/');
    if last != "" && last != "." then last
    else if |last| < |p| then PathName(p[..|p| - |last| - 1])
    else ""
  }

  /** The name of `d/n` is `n` when `n` is a real component. */
  lemma PathNameOfJoined(d: string, n: string)
    requires n != "" && n != "." && '/' !in n
    ensures PathName(d + "/" + n) == n
  {
    AfterLastOfJoined(d, '/', n);
  }

  /** A trailing '/' or "/." does not change the name. */
  lemma PathNameIgnoresTrailing(p: string)
    ensures PathName(p + "/") == PathName(p)
    ensures PathName(p + "/.") == PathName(p)
  {
    assert p + "/" == p + ['/'] + "";
    AfterLastOfJoined(p, '/', "");
    assert (p + "/")[..|p|] == p;
    assert p + "/." == p + ['/'] + ".";
    AfterLastOfJoined(p, '/', ".");
    assert (p + "/.")[..|p|] == p;
  }

  /** `PurePath(name).suffix`: from the last '.' on, provided that dot is
      neither the first nor the last character of the name; otherwise "". */
  function Suffix(name: string): (r: string)
    ensures r != "" ==> |r| >= 2 && r[0] == '.' && '.' !in r[1..] && |r| < |name| && EndsWith(name, r)
    ensures '.' !in name ==> r == ""
  {
    var tail := AfterLast(name, '.');
    if 0 < |tail| && |tail| + 1 < |name| then
      assert name[|name| - |tail| - 1..] == "." + tail;
      "." + tail
    else
      AfterLastWithoutLength(name, '.');
      ""
  }

  /** A single component `stem.ext` with a non-empty stem and a dot-free
      extension is its own name, and its suffix is `.ext`. */
  lemma SuffixOfExtension(stem: string, ext: string)
    requires stem != "" && ext != ""
    requires '/' !in stem && '/' !in ext && '.' !in ext
    ensures PathName(stem + "." + ext) == stem + "." + ext
    ensures Suffix(stem + "." + ext) == "." + ext
  {
    var name := stem + "." + ext;
    assert '/' !in name by {
      assert forall i :: 0 <= i < |name| ==> name[i] in stem || name[i] == '.' || name[i] in ext;
    }
    AfterLastWithout(name, '/');
    assert |name| >= 3;
    AfterLastOfJoined(stem, '.', ext);
    assert AfterLast(name, '.') == ext;
  }

  /** A hidden file's name (one leading dot and no other) has no suffix. */
  lemma SuffixOfHidden(name: string)
    requires |name| > 0 && name[0] == '.' && '.' !in name[1..]
    ensures Suffix(name) == ""
  {
    assert name == [] + ['.'] + name[1..];
    AfterLastOfJoined([], '.', name[1..]);
  }

  lemma AfterLastWithoutLength(s: string, c: char)
    ensures c !in s ==> |AfterLast(s, c)| == |s|
  {
    if c !in s {
      AfterLastWithout(s, c);
    }
  }

  lemma {:induction false} AfterLastLower(s: string, c: char)
    requires !('A' <= c <= 'Z') && !('a' <= c <= 'z')
    ensures AfterLast(Lower(s), c) == Lower(AfterLast(s, c))
    decreases |s|
  {
    if |s| > 0 {
      var init := s[..|s| - 1];
      var x := s[|s| - 1];
      assert s == init + [x];
      LowerAppend(init, [x]);
      assert Lower([x]) == [LowerChar(x)];
      LowerKeepsNonLetter(x, c);
      AfterLastSnoc(init, x, c);
      AfterLastSnoc(Lower(init), LowerChar(x), c);
      if x != c {
        AfterLastLower(init, c);
        LowerAppend(AfterLast(init, c), [x]);
      }
    }
  }

  /** Lower-casing a path and then taking its name is taking the name and then
      lower-casing it: '/' and '.' are not letters. */
  lemma {:induction false} PathNameLower(p: string)
    ensures PathName(Lower(p)) == Lower(PathName(p))
    decreases |p|
  {
    var lp := Lower(p);
    var last := AfterLast(p, '/');
    var lowLast := AfterLast(lp, '/');
    AfterLastLower(p, '/');
    LowerSpecialNames(last);
    assert |lowLast| == |last|;
    if last != "" && last != "." {
      assert PathName(p) == last;
      assert PathName(lp) == lowLast;
    } else if |last| < |p| {
      var rest := p[..|p| - |last| - 1];
      assert lp[..|lp| - |lowLast| - 1] == Lower(rest);
      PathNameLower(rest);
      assert PathName(p) == PathName(rest);
      assert PathName(lp) == PathName(Lower(rest));
    } else {
      assert PathName(p) == "";
      assert PathName(lp) == "";
    }
  }

  /** "" and "." are the only names lower-casing maps to "" and ".". */
  lemma LowerSpecialNames(t: string)
    ensures Lower(t) == "" <==> t == ""
    ensures Lower(t) == "." <==> t == "."
  {
    if |t| == 1 {
      LowerKeepsNonLetter(t[0], '.');
      assert Lower(t) == [LowerChar(t[0])];
    }
  }

  lemma SuffixLower(name: string)
    ensures Suffix(Lower(name)) == Lower(Suffix(name))
  {
    AfterLastLower(name, '.');
    var tail := AfterLast(name, '.');
    if 0 < |tail| && |tail| + 1 < |name| {
      LowerAppend(".", tail);
    }
  }
}
