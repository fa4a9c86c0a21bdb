/** Rewriting a path between the user's machine and the build server, `replace` in src/util.cc. */
module Paths {
  import opened Options
  import opened Text

  predicate EndsWithSlash(s: string) {
    s != "" && s[|s| - 1] == '/'
  }

  /** A directory without its trailing slash. */
  function Base(dir: string): string {
    if EndsWithSlash(dir) then dir[..|dir| - 1] else dir
  }

  /** What takes the place of `from`, when `next` (or the end of the string) follows it. */
  function Insertion(from: string, to: string, next: Option<char>): string
    requires from != "" && to != ""
  {
    if EndsWithSlash(to) && next == Some('/') then to[..|to| - 1]
    else if !EndsWithSlash(to) && EndsWithSlash(from) then to + "/"
    else to
  }

  /** The rewritten string, or None when `from` does not occur. */
  function Translate(str: string, from: string, to: string): Option<string>
    requires from != "" && to != ""
  {
    var at := Find(str, from);
    if at.None? then None
    else
      var end := at.value + |from|;
      var next := if end < |str| then Some(str[end]) else None;
      Some(str[..at.value] + Insertion(from, to, next) + str[end..])
  }

  /** Both callers reach `replace` only with both directories non-empty (src/control.cc:133, 218). */
  method Replace(str: string, from: string, to: string) returns (found: bool, out: string)
    requires from != "" && to != ""
    ensures found == Translate(str, from, to).Some?
    ensures out == if found then Translate(str, from, to).value else str
  {
    var startPos := Find(str, from);
    if startPos.None? {
      return false, str;
    }
    var start := startPos.value;
    var end := start + |from|;
    var toPath := to;
    if toPath[|toPath| - 1] == '/' && end < |str| && str[end] == '/' {
      toPath := toPath[..|toPath| - 1];
    } else if toPath[|toPath| - 1] != '/' && from[|from| - 1] == '/' {
      toPath := toPath + "/";
    }
    return true, str[..start] + toPath + str[end..];
  }

  /** A string that does not hold the directory has no translation, and is left as it is. */
  lemma NothingToTranslate(str: string, from: string, to: string)
    requires from != "" && to != ""
    ensures Translate(str, from, to).None? <==> forall i: nat :: !OccursAt(str, from, i)
  {
  }

  /** `replace` finds the directory at the front of a path below it. */
  lemma TranslateAtFront(src: string, dst: string, path: string)
    requires src != "" && dst != "" && OccursAt(path, src, 0)
    ensures var next := if |src| < |path| then Some(path[|src|]) else None;
      Translate(path, src, dst) == Some(Insertion(src, dst, next) + path[|src|..])
  {
    assert Find(path, src) == Some(0);
    assert path[..0] == "";
    var next := if |src| < |path| then Some(path[|src|]) else None;
    assert path[..0] + Insertion(src, dst, next) == Insertion(src, dst, next);
  }

  /** Only the first occurrence is replaced; what stands in front of it stays and does not matter. */
  lemma FirstIsTranslated(front: string, rest: string, from: string, to: string)
    requires from != "" && to != ""
    requires forall i: nat :: i < |front| ==> !OccursAt(front + from + rest, from, i)
    ensures Translate(from + rest, from, to).Some?
    ensures Translate(front + from + rest, from, to) == Some(front + Translate(from + rest, from, to).value)
  {
    var str := front + from + rest;
    assert OccursAt(str, from, |front|) && OccursAt(from + rest, from, 0);
    assert Find(str, from) == Some(|front|) && Find(from + rest, from) == Some(0);
    assert rest != "" ==> str[|front| + |from|] == rest[0] && (from + rest)[|from|] == rest[0];
    var next := if rest != "" then Some(rest[0]) else None;
    assert str[..|front|] == front && str[|front| + |from|..] == rest && (from + rest)[|from|..] == rest;
    assert front + (Insertion(from, to, next) + rest) == front + Insertion(from, to, next) + rest;
    TranslateAtFront(from, to, from + rest);
  }

  /** Where neither the directory nor what follows has the slash, the directory is replaced as it stands. */
  lemma PlainTranslation(rest: string, from: string, to: string)
    requires from != "" && to != "" && !EndsWithSlash(from) && (rest == "" || rest[0] != '/')
    ensures Translate(from + rest, from, to) == Some(to + rest)
  {
    TranslateAtFront(from, to, from + rest);
    assert (from + rest)[|from|..] == rest;
    assert rest != "" ==> (from + rest)[|from|] == rest[0];
  }

  /** What follows the directory in a path below it. */
  lemma PathBelow(dir: string, r: string)
    requires dir != ""
    ensures OccursAt(Base(dir) + "/" + r, dir, 0)
    ensures (Base(dir) + "/" + r)[|dir|..] == if EndsWithSlash(dir) then r else "/" + r
  {
  }

  /**
   A path below `src` becomes the same path below `dst`, whatever the trailing slashes, except for a
   doubled slash behind a pair of directories that both end in one.
   */
  lemma TranslateBelow(src: string, dst: string, r: string)
    requires src != "" && dst != ""
    ensures Translate(Base(src) + "/" + r, src, dst) == Some(Base(dst) + "/" + r)
      <==> !(EndsWithSlash(src) && EndsWithSlash(dst) && r != "" && r[0] == '/')
  {
    var path := Base(src) + "/" + r;
    PathBelow(src, r);
    TranslateAtFront(src, dst, path);
    var rest := path[|src|..];
    assert |src| < |path| ==> path[|src|] == rest[0];
    var next := if rest != "" then Some(rest[0]) else None;
    assert Translate(path, src, dst) == Some(Insertion(src, dst, next) + rest);
    InsertionFits(src, dst, r);
  }

  /** The inserted directory and the rest make up the path below `dst`. */
  lemma InsertionFits(src: string, dst: string, r: string)
    requires src != "" && dst != ""
    ensures var rest := if EndsWithSlash(src) then r else "/" + r;
      var next := if rest != "" then Some(rest[0]) else None;
      (Insertion(src, dst, next) + rest == Base(dst) + "/" + r) ==
      !(EndsWithSlash(src) && EndsWithSlash(dst) && r != "" && r[0] == '/')
  {
    assert EndsWithSlash(dst) ==> dst == Base(dst) + "/";
    assert Base(dst) + ("/" + r) == Base(dst) + "/" + r;
    assert |Base(dst) + "/" + r| == |Base(dst)| + 1 + |r|;
  }

  /** In the one case left out a slash is dropped. */
  lemma SlashDropped(src: string, dst: string, r: string)
    requires EndsWithSlash(src) && EndsWithSlash(dst) && r != "" && r[0] == '/'
    ensures Translate(Base(src) + "/" + r, src, dst) == Some(Base(dst) + "/" + r[1..])
  {
    var path := Base(src) + "/" + r;
    PathBelow(src, r);
    TranslateAtFront(src, dst, path);
    assert path[|src|..][0] == '/';
    assert Base(dst) + r == Base(dst) + "/" + r[1..];
  }

  /**
   There and back again: translating to the server and back restores the path, except in the one case in
   which a slash is dropped.
   */
  lemma TranslateRoundTrip(src: string, dst: string, r: string)
    requires src != "" && dst != ""
    ensures var path := Base(src) + "/" + r;
      var there := Translate(path, src, dst);
      there.Some? &&
      (Translate(there.value, dst, src) == Some(path)
       <==> !(EndsWithSlash(src) && EndsWithSlash(dst) && r != "" && r[0] == '/'))
  {
    TranslateBelow(src, dst, r);
    if EndsWithSlash(src) && EndsWithSlash(dst) && r != "" && r[0] == '/' {
      SlashDropped(src, dst, r);
      if |r| > 1 && r[1] == '/' {
        SlashDropped(dst, src, r[1..]);
      } else {
        TranslateBelow(dst, src, r[1..]);
      }
    } else {
      TranslateBelow(dst, src, r);
    }
  }
}
