/** Flattening array names for the debugger's front end, `process_var_front_name` in src/control.cc. */
module VarNames {
  import opened Text

  function FlatChar(c: char): string {
    if c == '[' then "." else if c == ']' then "" else [c]
  }

  /** The name with every `[` turned into a dot and every `]` dropped. */
  function Flatten(name: string): string {
    if name == "" then "" else Flatten(name[..|name| - 1]) + FlatChar(name[|name| - 1])
  }

  method ProcessVarFrontName(name: string) returns (varName: string)
    ensures varName == Flatten(name)
  {
    varName := "";
    for i := 0 to |name|
      invariant varName == Flatten(name[..i])
    {
      var c := name[i];
      assert name[..i + 1][..i] == name[..i];
      if c == '[' {
        varName := varName + ".";
      } else if c != ']' {
        varName := varName + [c];
      }
    }
    assert name[..|name|] == name;
  }

  // ---------------------------------------------------------- well-shaped names

  /** One step into a variable: `.name` or `[digits]`. */
  datatype Segment = Field(text: string) | Index(text: string)

  predicate Ident(s: string) {
    Word(s, ".[]") && !IsDigit(s[0])
  }

  predicate Shaped(seg: Segment) {
    match seg
    case Field(t) => Ident(t)
    case Index(t) => t != "" && Digits(t)
  }

  predicate AllShaped(segs: seq<Segment>) {
    forall k :: 0 <= k < |segs| ==> Shaped(segs[k])
  }

  function Show(seg: Segment): string {
    match seg
    case Field(t) => "." + t
    case Index(t) => "[" + t + "]"
  }

  /** The name as the database stores it. */
  function Print(root: string, segs: seq<Segment>): string {
    if segs == [] then root
    else Print(root, segs[..|segs| - 1]) + Show(segs[|segs| - 1])
  }

  /** The root and the text of every segment. */
  function Texts(root: string, segs: seq<Segment>): (r: seq<string>)
    ensures |r| == |segs| + 1 && r[0] == root
    ensures forall k :: 0 <= k < |segs| ==> r[k + 1] == segs[k].text
  {
    if segs == [] then [root]
    else Texts(root, segs[..|segs| - 1]) + [segs[|segs| - 1].text]
  }

  // ------------------------------------------------------------------ inverse

  /** A numeric piece goes back into brackets, any other piece behind a dot. */
  function Rebuild(ts: seq<string>): string {
    if ts == [] then ""
    else if |ts| == 1 then ts[0]
    else
      var t := ts[|ts| - 1];
      Rebuild(ts[..|ts| - 1]) + (if t != "" && IsDigit(t[0]) then "[" + t + "]" else "." + t)
  }

  /** The inverse of `Flatten` on well-shaped names. */
  function Rebracket(flat: string): string {
    Rebuild(Tokens(flat, "."))
  }

  lemma {:induction false} FlattenAppend(a: string, b: string)
    ensures Flatten(a + b) == Flatten(a) + Flatten(b)
  {
    if b == "" {
      assert a + b == a;
    } else {
      var s, init, last := a + b, b[..|b| - 1], b[|b| - 1];
      assert s[..|s| - 1] == a + init && s[|s| - 1] == last;
      FlattenAppend(a, init);
      assert Flatten(a) + (Flatten(init) + FlatChar(last)) == Flatten(a) + Flatten(init) + FlatChar(last);
    }
  }

  lemma {:induction false} FlattenPlain(s: string)
    requires Free(s, "[]", 0, |s|)
    ensures Flatten(s) == s
  {
    if s != "" {
      FlattenPlain(s[..|s| - 1]);
    }
  }

  lemma SegmentIsPlain(seg: Segment)
    requires Shaped(seg)
    ensures Word(seg.text, ".[]") && Flatten(seg.text) == seg.text
  {
    var t := seg.text;
    assert seg.Index? ==> forall i :: 0 <= i < |t| ==> IsDigit(t[i]);
    FlattenPlain(t);
  }

  lemma FlattenOne(c: char)
    ensures Flatten([c]) == FlatChar(c)
  {
    assert [c][..0] == "";
  }

  lemma FlattenShow(seg: Segment)
    requires Shaped(seg)
    ensures Flatten(Show(seg)) == "." + seg.text
  {
    var t := seg.text;
    SegmentIsPlain(seg);
    match seg
    case Field(_) =>
      FlattenOne('.');
      FlattenAppend(".", t);
    case Index(_) =>
      FlattenOne('[');
      FlattenOne(']');
      FlattenAppend("[", t);
      FlattenAppend("[" + t, "]");
  }

  /** Flattening a well-shaped name joins its pieces with dots. */
  lemma {:induction false} FlattenPrint(root: string, segs: seq<Segment>)
    requires Ident(root) && AllShaped(segs)
    ensures Flatten(Print(root, segs)) == Join(Texts(root, segs), ".")
  {
    if segs == [] {
      FlattenPlain(root);
    } else {
      var init, last := segs[..|segs| - 1], segs[|segs| - 1];
      FlattenPrint(root, init);
      FlattenAppend(Print(root, init), Show(last));
      FlattenShow(last);
      JoinSnoc(Texts(root, init), last.text, ".");
    }
  }

  lemma {:induction false} RebuildTexts(root: string, segs: seq<Segment>)
    requires Ident(root) && AllShaped(segs)
    ensures Rebuild(Texts(root, segs)) == Print(root, segs)
  {
    if segs != [] {
      var init, last := segs[..|segs| - 1], segs[|segs| - 1];
      RebuildTexts(root, init);
      var ts := Texts(root, segs);
      assert ts[..|ts| - 1] == Texts(root, init);
    }
  }

  /** Nothing is lost: re-bracketing the flattened name gives the name back. */
  lemma FlattenRoundTrip(root: string, segs: seq<Segment>)
    requires Ident(root) && AllShaped(segs)
    ensures Rebracket(Flatten(Print(root, segs))) == Print(root, segs)
  {
    FlattenPrint(root, segs);
    var ts := Texts(root, segs);
    forall k | 0 <= k < |ts| ensures Word(ts[k], ".") {
      if k > 0 {
        var seg := segs[k - 1];
        assert Shaped(seg) && ts[k] == seg.text;
        SegmentIsPlain(seg);
      }
    }
    TokensOfJoin(ts, '.');
    RebuildTexts(root, segs);
  }

  /** Two well-shaped names that flatten alike are the same name. */
  lemma FlattenIsInjective(root: string, segs: seq<Segment>, root': string, segs': seq<Segment>)
    requires Ident(root) && AllShaped(segs) && Ident(root') && AllShaped(segs')
    requires Flatten(Print(root, segs)) == Flatten(Print(root', segs'))
    ensures Print(root, segs) == Print(root', segs')
  {
    FlattenRoundTrip(root, segs);
    FlattenRoundTrip(root', segs');
  }
}
