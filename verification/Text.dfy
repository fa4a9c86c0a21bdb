/**
 The string helpers of src/util.cc and src/util.hh: searching, tokenising, joining and decimal
 numerals.  Each loop of the source is a method proved against a recursive function; the lemmas say
 what those functions mean.
 */
module Text {
  import opened Options

  // ---------------------------------------------------------------- searching

  /** The pattern `p` stands in `s` at position `i`. */
  predicate OccursAt(s: string, p: string, i: nat) {
    i + |p| <= |s| && s[i..i + |p|] == p
  }

  /** `std::string::find(p, i)`: the first position at or after `i` where `p` stands. */
  function FindFrom(s: string, p: string, i: nat): (r: Option<nat>)
    ensures r.Some? ==> i <= r.value && OccursAt(s, p, r.value)
    ensures r.Some? ==> forall k: nat :: i <= k < r.value ==> !OccursAt(s, p, k)
    ensures r.None? ==> forall k: nat :: i <= k ==> !OccursAt(s, p, k)
    decreases |s| - i
  {
    if i + |p| > |s| then None
    else if OccursAt(s, p, i) then Some(i)
    else FindFrom(s, p, i + 1)
  }

  function Find(s: string, p: string): (r: Option<nat>) {
    FindFrom(s, p, 0)
  }

  // --------------------------------------------------------------- tokenising

  /** No delimiter stands in `s[a..b]`. */
  predicate Free(s: string, delims: string, a: nat, b: nat) {
    b <= |s| && forall i :: a <= i < b ==> s[i] !in delims
  }

  /** `std::string::find_first_of(delims, i)`, with `|s|` standing for `npos`. */
  function FirstOf(s: string, delims: string, i: nat): (r: nat)
    requires i <= |s|
    ensures i <= r <= |s| && Free(s, delims, i, r)
    ensures r < |s| ==> s[r] in delims
    decreases |s| - i
  {
    if i == |s| || s[i] in delims then i else FirstOf(s, delims, i + 1)
  }

  /** `line[a..b]` is a maximal stretch of `line` without delimiters. */
  predicate IsRun(line: string, delims: string, a: nat, b: nat) {
    && a < b && Free(line, delims, a, b)
    && (a == 0 || line[a - 1] in delims)
    && (b == |line| || line[b] in delims)
  }

  /** The tokens of `line[from..]`. */
  function TokensFrom(line: string, delims: string, from: nat): (r: seq<string>)
    requires from <= |line|
    decreases |line| - from
  {
    if from == |line| then []
    else if line[from] in delims then TokensFrom(line, delims, from + 1)
    else
      var pos := FirstOf(line, delims, from);
      [line[from..pos]] + TokensFrom(line, delims, pos)
  }

  function Tokens(line: string, delims: string): (r: seq<string>) {
    TokensFrom(line, delims, 0)
  }

  /** Where the tokens of `line[from..]` stand. */
  function Spans(line: string, delims: string, from: nat): (r: seq<(nat, nat)>)
    requires from <= |line|
    decreases |line| - from
  {
    if from == |line| then []
    else if line[from] in delims then Spans(line, delims, from + 1)
    else
      var pos := FirstOf(line, delims, from);
      [(from, pos)] + Spans(line, delims, pos)
  }

  /** No run begins before `from` and ends after it. */
  predicate Boundary(line: string, delims: string, from: nat) {
    from <= |line| && (from == 0 || from == |line| || line[from - 1] in delims || line[from] in delims)
  }

  lemma {:induction false} SpanPerToken(line: string, delims: string, from: nat)
    requires from <= |line|
    ensures |Spans(line, delims, from)| == |TokensFrom(line, delims, from)|
    decreases |line| - from
  {
    if from < |line| {
      SpanPerToken(line, delims, if line[from] in delims then from + 1 else FirstOf(line, delims, from));
    }
  }

  /** Every token stands at a maximal run. */
  lemma {:induction false} SpanIsRun(line: string, delims: string, from: nat, k: nat)
    requires Boundary(line, delims, from)
    requires k < |Spans(line, delims, from)| == |TokensFrom(line, delims, from)|
    ensures var r := Spans(line, delims, from)[k];
      IsRun(line, delims, r.0, r.1) && TokensFrom(line, delims, from)[k] == line[r.0..r.1]
    decreases |line| - from
  {
    if line[from] in delims {
      SpanIsRun(line, delims, from + 1, k);
    } else if k > 0 {
      SpanIsRun(line, delims, FirstOf(line, delims, from), k - 1);
    }
  }

  /** The runs found come in order, with a gap between them. */
  lemma {:induction false} SpansAreOrdered(line: string, delims: string, from: nat)
    requires from <= |line|
    ensures forall k :: 0 <= k < |Spans(line, delims, from)| ==>
      var a := Spans(line, delims, from)[k].0; from <= a < |line| && line[a] !in delims
    ensures forall j, k :: 0 <= j < k < |Spans(line, delims, from)| ==>
      Spans(line, delims, from)[j].1 < Spans(line, delims, from)[k].0
    decreases |line| - from
  {
    if from < |line| {
      if line[from] in delims {
        SpansAreOrdered(line, delims, from + 1);
      } else {
        SpansAreOrdered(line, delims, FirstOf(line, delims, from));
      }
    }
  }

  /** Every maximal run is found. */
  lemma {:induction false} SpansMissNothing(line: string, delims: string, from: nat, a: nat, b: nat)
    requires from <= a && IsRun(line, delims, a, b)
    ensures (a, b) in Spans(line, delims, from)
    decreases |line| - from
  {
    if from < a {
      if line[from] in delims {
        SpansMissNothing(line, delims, from + 1, a, b);
      } else {
        SpansMissNothing(line, delims, FirstOf(line, delims, from), a, b);
      }
    }
  }

  /**
   `get_tokens` returns exactly the maximal delimiter-free runs of the line: each token is one, they
   come in order, and each run is some token.
   */
  lemma TokensAreTheRuns(line: string, delims: string) returns (spans: seq<(nat, nat)>)
    ensures |spans| == |Tokens(line, delims)|
    ensures forall k :: 0 <= k < |spans| ==>
      && IsRun(line, delims, spans[k].0, spans[k].1)
      && Tokens(line, delims)[k] == line[spans[k].0..spans[k].1]
    ensures forall j, k :: 0 <= j < k < |spans| ==> spans[j].1 < spans[k].0
    ensures forall a: nat, b: nat :: IsRun(line, delims, a, b) ==> (a, b) in spans
  {
    spans := Spans(line, delims, 0);
    SpanPerToken(line, delims, 0);
    forall k | 0 <= k < |spans|
      ensures IsRun(line, delims, spans[k].0, spans[k].1)
      ensures Tokens(line, delims)[k] == line[spans[k].0..spans[k].1]
    {
      SpanIsRun(line, delims, 0, k);
    }
    SpansAreOrdered(line, delims, 0);
    forall a: nat, b: nat | IsRun(line, delims, a, b) ensures (a, b) in spans {
      SpansMissNothing(line, delims, 0, a, b);
    }
  }

  /** A token is non-empty and holds no delimiter. */
  predicate Word(t: string, delims: string) {
    t != "" && Free(t, delims, 0, |t|)
  }

  predicate Words(ts: seq<string>, delims: string) {
    forall k :: 0 <= k < |ts| ==> Word(ts[k], delims)
  }

  lemma TokensAreWords(line: string, delims: string)
    ensures Words(Tokens(line, delims), delims)
  {
    var ts, spans := Tokens(line, delims), Spans(line, delims, 0);
    SpanPerToken(line, delims, 0);
    forall k | 0 <= k < |ts| ensures Word(ts[k], delims) {
      SpanIsRun(line, delims, 0, k);
      assert ts[k] == line[spans[k].0..spans[k].1];
    }
  }

  /** The second pass of `get_tokens`: empty strings are removed. */
  method DropEmpty(tokens: seq<string>) returns (result: seq<string>)
    ensures "" !in result
    ensures "" !in tokens ==> result == tokens
  {
    result := [];
    for i := 0 to |tokens|
      invariant "" !in result
      invariant "" !in tokens ==> result == tokens[..i]
    {
      if tokens[i] != "" {
        result := result + [tokens[i]];
      }
    }
  }

  method GetTokens(line: string, delims: string) returns (result: seq<string>)
    ensures result == Tokens(line, delims)
  {
    var tokens: seq<string> := [];
    var prev := 0;
    var pos := FirstOf(line, delims, prev);
    while pos < |line|
      invariant prev <= |line| && pos == FirstOf(line, delims, prev)
      invariant Tokens(line, delims) == tokens + TokensFrom(line, delims, prev)
      decreases |line| - prev
    {
      if pos > prev {
        TokensStep(tokens, line, delims, prev);
        tokens := tokens + [line[prev..pos]];
      }
      prev := pos + 1;
      pos := FirstOf(line, delims, prev);
    }
    if prev < |line| {
      TokensStep(tokens, line, delims, prev);
      tokens := tokens + [line[prev..]];
    }
    assert tokens == Tokens(line, delims);
    TokensAreWords(line, delims);
    result := DropEmpty(tokens);
  }

  /** Moving the scanning position past one token. */
  lemma TokensStep(tokens: seq<string>, line: string, delims: string, prev: nat)
    requires prev < |line| && line[prev] !in delims
    ensures var pos := FirstOf(line, delims, prev);
      && tokens + TokensFrom(line, delims, prev) == tokens + [line[prev..pos]] + TokensFrom(line, delims, pos)
      && (pos == |line| ==> line[prev..pos] == line[prev..])
  {
  }

  /** The line without its delimiter characters. */
  function Strip(line: string, delims: string): string {
    if line == [] then []
    else (if line[0] in delims then [] else [line[0]]) + Strip(line[1..], delims)
  }

  function Concat(ts: seq<string>): string {
    if ts == [] then [] else ts[0] + Concat(ts[1..])
  }

  lemma {:induction false} StripPrefix(p: string, line: string, delims: string)
    requires Free(p, delims, 0, |p|)
    ensures Strip(p + line, delims) == p + Strip(line, delims)
  {
    if p == [] {
      assert p + line == line;
    } else {
      assert (p + line)[1..] == p[1..] + line;
      StripPrefix(p[1..], line, delims);
    }
  }

  /** Tokenising drops the delimiter characters and nothing else. */
  lemma {:induction false} TokensKeepTheRest(line: string, delims: string, from: nat)
    requires from <= |line|
    ensures Concat(TokensFrom(line, delims, from)) == Strip(line[from..], delims)
    decreases |line| - from
  {
    if from < |line| {
      if line[from] in delims {
        TokensKeepTheRest(line, delims, from + 1);
        assert line[from..][1..] == line[from + 1..];
      } else {
        var pos := FirstOf(line, delims, from);
        TokensKeepTheRest(line, delims, pos);
        assert line[from..] == line[from..pos] + line[pos..];
        StripPrefix(line[from..pos], line[pos..], delims);
      }
    }
  }

  // ------------------------------------------------------------------ joining

  function Join(ts: seq<string>, sep: string): string {
    if ts == [] then []
    else if |ts| == 1 then ts[0]
    else ts[0] + sep + Join(ts[1..], sep)
  }

  lemma {:induction false} JoinSnoc(ts: seq<string>, t: string, sep: string)
    requires ts != []
    ensures Join(ts + [t], sep) == Join(ts, sep) + sep + t
  {
    if |ts| == 1 {
      assert (ts + [t])[1..] == [t];
    } else {
      assert (ts + [t])[1..] == ts[1..] + [t];
      JoinSnoc(ts[1..], t, sep);
    }
  }

  method JoinTokens(ts: seq<string>, sep: string) returns (s: string)
    ensures s == Join(ts, sep)
  {
    s := "";
    for i := 0 to |ts|
      invariant s == Join(ts[..i], sep)
    {
      assert ts[..i + 1] == ts[..i] + [ts[i]];
      if i != 0 {
        JoinSnoc(ts[..i], ts[i], sep);
        s := s + sep;
      }
      s := s + ts[i];
    }
    assert ts[..|ts|] == ts;
  }

  // ------------------------------------------- tokenising against joining

  lemma {:induction false} FirstOfDrop(line: string, delims: string, k: nat, i: nat)
    requires k + i <= |line|
    ensures k + FirstOf(line[k..], delims, i) == FirstOf(line, delims, k + i)
    decreases |line| - k - i
  {
    if k + i < |line| && line[k + i] !in delims {
      FirstOfDrop(line, delims, k, i + 1);
    }
  }

  /** The tokens depend only on the text from the scanning position on. */
  lemma {:induction false} TokensDrop(line: string, rest: string, delims: string, k: nat, i: nat)
    requires k + i <= |line| && rest == line[k..]
    ensures TokensFrom(rest, delims, i) == TokensFrom(line, delims, k + i)
    decreases |line| - k - i
  {
    if k + i < |line| {
      assert rest[i] == line[k + i];
      if rest[i] in delims {
        TokensDrop(line, rest, delims, k, i + 1);
      } else {
        FirstOfDrop(line, delims, k, i);
        var p := FirstOf(rest, delims, i);
        TokensDrop(line, rest, delims, k, p);
        assert rest[i..p] == line[k + i..k + p];
      }
    }
  }

  lemma TokensOfWord(t: string, delims: string)
    requires Word(t, delims)
    ensures Tokens(t, delims) == [t]
  {
    assert t[0] !in delims && FirstOf(t, delims, 0) == |t|;
    assert t[0..|t|] == t;
    assert TokensFrom(t, delims, |t|) == [];
  }

  /** The first separator ends the first token. */
  lemma TokensOfPair(t: string, c: char, rest: string)
    requires Word(t, [c])
    ensures Tokens(t + [c] + rest, [c]) == [t] + Tokens(rest, [c])
  {
    var line := t + [c] + rest;
    assert forall i :: 0 <= i < |t| ==> line[i] == t[i];
    assert line[|t|] == c;
    assert line[0] !in [c] && FirstOf(line, [c], 0) == |t|;
    assert line[0..|t|] == t;
    assert line[|t| + 1..] == rest;
    TokensDrop(line, rest, [c], |t| + 1, 0);
    assert TokensFrom(line, [c], |t|) == Tokens(rest, [c]);
  }

  /** Joined words are found again. */
  lemma {:induction false} TokensOfJoin(ts: seq<string>, c: char)
    requires Words(ts, [c])
    ensures Tokens(Join(ts, [c]), [c]) == ts
  {
    if |ts| == 1 {
      TokensOfWord(ts[0], [c]);
    } else if |ts| > 1 {
      TokensOfPair(ts[0], c, Join(ts[1..], [c]));
      TokensOfJoin(ts[1..], c);
    }
  }

  /** No leading, trailing or doubled separator. */
  predicate Clean(s: string, c: char) {
    forall i :: 0 <= i < |s| && s[i] == c ==> 0 < i < |s| - 1 && s[i + 1] != c
  }

  lemma {:induction false} JoinIsClean(ts: seq<string>, c: char)
    requires Words(ts, [c])
    ensures Clean(Join(ts, [c]), c)
    ensures ts != [] ==> Join(ts, [c]) != ""
  {
    if |ts| == 1 {
      assert forall i :: 0 <= i < |ts[0]| ==> ts[0][i] != c;
    } else if |ts| > 1 {
      JoinIsClean(ts[1..], c);
      var t, rest := ts[0], Join(ts[1..], [c]);
      var s := t + [c] + rest;
      assert forall i :: 0 <= i < |t| ==> s[i] == t[i] && t[i] != c;
      assert forall i :: |t| < i < |s| ==> s[i] == rest[i - |t| - 1];
    }
  }

  lemma {:induction false} JoinOfCleanTokens(s: string, c: char)
    requires Clean(s, c)
    ensures Join(Tokens(s, [c]), [c]) == s
    ensures s != "" ==> Tokens(s, [c]) != []
    decreases |s|
  {
    if s != "" {
      var pos := FirstOf(s, [c], 0);
      var t := s[0..pos];
      if pos == |s| {
        assert t == s;
        TokensOfWord(s, [c]);
      } else {
        var rest := s[pos + 1..];
        assert s == t + [c] + rest;
        assert Clean(rest, c) && rest != "" by {
          assert forall i :: 0 <= i < |rest| ==> rest[i] == s[pos + 1 + i];
        }
        TokensOfPair(t, c, rest);
        JoinOfCleanTokens(rest, c);
      }
    }
  }

  /** Tokenising and joining restore a string exactly when it is clean. */
  lemma JoinOfTokens(s: string, c: char)
    ensures Join(Tokens(s, [c]), [c]) == s <==> Clean(s, c)
  {
    if Clean(s, c) {
      JoinOfCleanTokens(s, c);
    }
    TokensAreWords(s, [c]);
    JoinIsClean(Tokens(s, [c]), c);
  }

  // ----------------------------------------------------------------- numerals

  predicate IsDigit(c: char) {
    '0' <= c <= '9'
  }

  /** `is_digits`: the empty string passes too. */
  predicate Digits(s: string) {
    forall i :: 0 <= i < |s| ==> IsDigit(s[i])
  }

  method IsDigits(s: string) returns (r: bool)
    ensures r == Digits(s)
  {
    for i := 0 to |s|
      invariant Digits(s[..i])
    {
      if !IsDigit(s[i]) {
        return false;
      }
    }
    return true;
  }

  /** The value of a decimal numeral. */
  function FromDec(s: string): nat
    requires Digits(s)
  {
    if s == [] then 0
    else 10 * FromDec(s[..|s| - 1]) + (s[|s| - 1] - '0') as nat
  }

  /** The numeral that `fmt::format("{0}", n)` prints. */
  function ToDec(n: nat): (s: string)
    ensures s != "" && Digits(s)
    ensures FromDec(s) == n
  {
    if n < 10 then
      ['0' + n as char]
    else
      var init := ToDec(n / 10);
      var s := init + ['0' + (n % 10) as char];
      assert s[..|s| - 1] == init;
      s
  }

  predicate IsSpace(c: char) {
    c == ' ' || '\t' <= c <= '\r'
  }

  /** How many characters of `s` from `i` on satisfy `IsDigit`. */
  function DigitRun(s: string, i: nat): (r: nat)
    requires i <= |s|
    ensures i <= r <= |s| && Digits(s[i..r])
    ensures r < |s| ==> !IsDigit(s[r])
    decreases |s| - i
  {
    if i == |s| || !IsDigit(s[i]) then i
    else
      var r := DigitRun(s, i + 1);
      assert s[i..r] == [s[i]] + s[i + 1..r];
      r
  }

  function SkipSpace(s: string, i: nat): (r: nat)
    requires i <= |s|
    ensures i <= r <= |s|
    decreases |s| - i
  {
    if i == |s| || !IsSpace(s[i]) then i else SkipSpace(s, i + 1)
  }

  /** The longest digit run from `j` on, negated if asked; None without digits or outside 32 bits. */
  function Numeral(s: string, j: nat, neg: bool): (r: Option<int>)
    requires j <= |s|
    ensures r.Some? ==> -0x8000_0000 <= r.value <= 0x7fff_ffff
  {
    var k := DigitRun(s, j);
    if j == k then None
    else
      var v := if neg then -(FromDec(s[j..k]) as int) else FromDec(s[j..k]);
      if -0x8000_0000 <= v <= 0x7fff_ffff then Some(v) else None
  }

  /** `std::stoi`: leading blanks, an optional sign and the longest digit run; None where it throws. */
  function Stoi(s: string): (r: Option<int>)
    ensures r.Some? ==> -0x8000_0000 <= r.value <= 0x7fff_ffff
  {
    var i := SkipSpace(s, 0);
    if i < |s| && (s[i] == '-' || s[i] == '+') then Numeral(s, i + 1, s[i] == '-')
    else Numeral(s, i, false)
  }

  lemma {:induction false} DigitRunToEnd(s: string, i: nat)
    requires i <= |s| && forall j :: i <= j < |s| ==> IsDigit(s[j])
    ensures DigitRun(s, i) == |s|
    decreases |s| - i
  {
    if i < |s| {
      DigitRunToEnd(s, i + 1);
    }
  }

  /** Reading a digit string to the end. */
  lemma NumeralOfDigits(s: string, j: nat, neg: bool, d: string)
    requires j <= |s| && s[j..] == d && d != "" && Digits(d)
    requires FromDec(d) <= 0x7fff_ffff + (if neg then 1 else 0)
    ensures Numeral(s, j, neg) == Some(if neg then -(FromDec(d) as int) else FromDec(d))
  {
    assert forall i :: j <= i < |s| ==> s[i] == s[j..][i - j];
    DigitRunToEnd(s, j);
    assert s[j..|s|] == d;
  }

  /** A printed 32-bit value reads back as itself. */
  lemma StoiOfDec(v: int)
    requires -0x8000_0000 <= v <= 0x7fff_ffff
    ensures Stoi(if v < 0 then "-" + ToDec(-v) else ToDec(v)) == Some(v)
  {
    var d := ToDec(if v < 0 then -v else v);
    if v < 0 {
      NumeralOfDigits("-" + d, 1, true, d);
    } else {
      assert IsDigit(d[0]);
      NumeralOfDigits(d, 0, false, d);
    }
  }

  /** The value of one digit. */
  lemma DigitValue(c: char)
    requires IsDigit(c)
    ensures FromDec([c]) < 10 && "0123456789"[FromDec([c])] == c
  {
    assert [c][..0] == [];
    assert FromDec([c]) == (c - '0') as nat;
  }

  function Power(n: nat): nat {
    if n == 0 then 1 else 10 * Power(n - 1)
  }

  /** A numeral is read by position: what stands in front of `n` digits counts for the n-th power of ten. */
  lemma {:induction false} NumeralIsPositional(front: string, back: string)
    requires Digits(front) && Digits(back) && Digits(front + back)
    ensures FromDec(front + back) == FromDec(front) * Power(|back|) + FromDec(back)
  {
    if back == "" {
      assert front + back == front;
    } else {
      var all, init, last := front + back, back[..|back| - 1], back[|back| - 1];
      assert all[..|all| - 1] == front + init && all[|all| - 1] == last;
      NumeralIsPositional(front, init);
      ScaledUp(FromDec(front), Power(|init|), FromDec(init), (last - '0') as nat);
    }
  }

  lemma ScaledUp(a: nat, p: nat, b: nat, d: nat)
    ensures 10 * (a * p + b) + d == a * (10 * p) + (10 * b + d)
  {
  }

  predicate AllBlank(s: string) {
    forall i :: 0 <= i < |s| ==> s[i] in " \t\n\r" || s[i] == 11 as char || s[i] == 12 as char
  }

  lemma {:induction false} BlanksSkipped(blanks: string, s: string, i: nat)
    requires AllBlank(blanks) && i <= |blanks| && (s == "" || !AllBlank(s[..1]))
    ensures SkipSpace(blanks + s, i) == |blanks|
    decreases |blanks| - i
  {
    var all := blanks + s;
    if i < |blanks| {
      assert all[i] == blanks[i];
      BlanksSkipped(blanks, s, i + 1);
    } else if s != "" {
      assert all[i] == s[0];
      assert s[..1][0] == s[0];
    }
  }

  /** What `std::stoi` makes of blanks, a sign, digits and a rest that begins with no digit. */
  lemma StoiMeaning(blanks: string, sign: string, d: string, rest: string)
    requires AllBlank(blanks) && sign in {"", "-", "+"} && d != "" && Digits(d) && (rest == "" || !IsDigit(rest[0]))
    ensures var v := if sign == "-" then -(FromDec(d) as int) else FromDec(d);
      Stoi(blanks + sign + d + rest) == if -0x8000_0000 <= v <= 0x7fff_ffff then Some(v) else None
  {
    hide FromDec, SkipSpace, Numeral;
    var front := blanks + sign;
    NumeralAt(front, d, rest, sign == "-");
    SignFound(blanks, sign, d, front + d + rest, rest);
  }

  /** Where the sign is, or the first digit if there is none. */
  lemma SignFound(blanks: string, sign: string, d: string, s: string, rest: string)
    requires AllBlank(blanks) && sign in {"", "-", "+"} && d != "" && IsDigit(d[0])
    requires s == blanks + sign + d + rest
    ensures SkipSpace(s, 0) == |blanks| < |s| && s[|blanks|] == if sign == "" then d[0] else sign[0]
  {
    var tail := sign + d + rest;
    assert s == blanks + tail && tail[..1] == [tail[0]];
    assert tail[0] == if sign == "" then d[0] else sign[0];
    BlanksSkipped(blanks, tail, 0);
    assert s[|blanks|] == tail[0];
  }

  lemma NumeralAt(front: string, d: string, rest: string, neg: bool)
    requires d != "" && Digits(d) && (rest == "" || !IsDigit(rest[0]))
    ensures var v := if neg then -(FromDec(d) as int) else FromDec(d);
      Numeral(front + d + rest, |front|, neg) == if -0x8000_0000 <= v <= 0x7fff_ffff then Some(v) else None
  {
    hide FromDec;
    var s, j := front + d + rest, |front|;
    forall i | j <= i < j + |d| ensures IsDigit(s[i]) {
      assert s[i] == d[i - j];
    }
    assert rest != "" ==> s[j + |d|] == rest[0];
    DigitRunIs(s, j, j + |d|);
    assert s[j..j + |d|] == d;
  }

  lemma {:induction false} DigitRunIs(s: string, i: nat, k: nat)
    requires i <= k <= |s| && (forall j :: i <= j < k ==> IsDigit(s[j])) && (k == |s| || !IsDigit(s[k]))
    ensures DigitRun(s, i) == k
    decreases k - i
  {
    if i < k {
      DigitRunIs(s, i + 1, k);
    }
  }

  /** Without a digit behind the blanks and the sign there is no number. */
  lemma StoiNeedsDigits(blanks: string, sign: string, rest: string)
    requires AllBlank(blanks) && sign in {"", "-", "+"}
    requires rest == "" || !(IsDigit(rest[0]) || (sign == "" && (AllBlank(rest[..1]) || rest[0] in "+-")))
    ensures Stoi(blanks + sign + rest) == None
  {
    var s, tail := blanks + sign + rest, sign + rest;
    assert s == blanks + tail;
    assert tail != "" ==> tail[..1][0] == tail[0];
    assert sign == "" ==> tail == rest;
    BlanksSkipped(blanks, tail, 0);
    assert sign != "" ==> s[|blanks|] == sign[0];
    assert rest != "" ==> s[|blanks| + |sign|] == rest[0];
  }
}
