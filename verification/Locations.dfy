/** Parsing `file:line` and `file:line:column`, `get_fn_ln` in src/control.cc. */
module Locations {
  import opened Text

  /** What `get_fn_ln` answers; `Overflow` is the exception of `std::stoul`. */
  datatype Location = Missing | Found(filename: string, line: nat) | Overflow

  /** The line number that stands for "no line". */
  const NO_LINE: nat := 0xFFFF_FFFF

  const ULONG_LIMIT: nat := 0x1_0000_0000_0000_0000

  /** What the numeral and the name found in a path amount to: the line is cut to 32 bits. */
  function Settle(filename: string, numeral: string): Location
    requires Digits(numeral)
  {
    if FromDec(numeral) >= ULONG_LIMIT then Overflow
    else
      var line := FromDec(numeral) % 0x1_0000_0000;
      if filename == "" || line == NO_LINE then Missing else Found(filename, line)
  }

  function Locate(path: string): Location {
    var ts := Tokens(path, ":");
    var n := |ts|;
    if n == 2 && Digits(ts[1]) then Settle(ts[0], ts[1])
    else if n > 2 && Digits(ts[n - 1]) && Digits(ts[n - 2]) then Settle(Join(ts[..n - 2], ":"), ts[n - 2])
    else Missing
  }

  method GetFnLn(path: string) returns (r: Location)
    ensures r == Locate(path)
  {
    var filename := "";
    var line := NO_LINE;
    var tokens := GetTokens(path, ":");
    var n := |tokens|;
    if n == 2 {
      var lineStr := tokens[1];
      var ok := IsDigits(lineStr);
      if ok {
        if FromDec(lineStr) >= ULONG_LIMIT { return Overflow; }
        line := FromDec(lineStr) % 0x1_0000_0000;
        filename := tokens[0];
      }
    } else if n > 2 {
      var colStr, lineStr := tokens[n - 1], tokens[n - 2];
      var colOk := IsDigits(colStr);
      var lineOk := IsDigits(lineStr);
      if colOk && lineOk {
        filename := JoinTokens(tokens[..n - 2], ":");
        if FromDec(lineStr) >= ULONG_LIMIT { return Overflow; }
        line := FromDec(lineStr) % 0x1_0000_0000;
      }
    }
    return if filename == "" || line == NO_LINE then Missing else Found(filename, line);
  }

  lemma DigitsAreWords(d: string)
    requires d != "" && Digits(d)
    ensures Word(d, ":")
  {
    assert forall i :: 0 <= i < |d| ==> IsDigit(d[i]);
  }

  /** A word behind a clean name and a colon is one more token. */
  lemma TokensSnoc(f: string, t: string)
    requires f != "" && Clean(f, ':') && Word(t, ":")
    ensures Tokens(f + ":" + t, ":") == Tokens(f, ":") + [t]
    ensures Clean(f + ":" + t, ':')
  {
    var ts := Tokens(f, ":");
    TokensAreWords(f, ":");
    JoinOfCleanTokens(f, ':');
    JoinSnoc(ts, t, ":");
    TokensOfJoin(ts + [t], ':');
    JoinIsClean(ts + [t], ':');
  }

  /** A file name that is found has no leading, trailing or doubled colon. */
  lemma FoundIsClean(path: string)
    requires Locate(path).Found?
    ensures Clean(Locate(path).filename, ':')
  {
    var ts := Tokens(path, ":");
    TokensAreWords(path, ":");
    if |ts| == 2 {
      JoinIsClean(ts[..1], ':');
    } else {
      JoinIsClean(ts[..|ts| - 2], ':');
    }
  }

  /** A clean name and two numerals are found again. */
  lemma LocateFull(f: string, num: string, c: string)
    requires f != "" && Clean(f, ':')
    requires Digits(num) && Digits(c) && Word(num, ":") && Word(c, ":")
    ensures Locate(f + ":" + num + ":" + c) == Settle(f, num)
  {
    TokensSnoc(f, num);
    TokensSnoc(f + ":" + num, c);
    JoinOfCleanTokens(f, ':');
    LocateTokens(f + ":" + num + ":" + c, Tokens(f, ":"), num, c);
  }

  lemma LocateTokens(path: string, ts: seq<string>, num: string, c: string)
    requires Tokens(path, ":") == ts + [num] + [c] && ts != []
    requires Digits(num) && Digits(c)
    ensures Locate(path) == Settle(Join(ts, ":"), num)
  {
    assert (ts + [num] + [c])[..|ts|] == ts;
  }

  lemma FullExactly(path: string, f: string, num: string, c: string)
    requires path == f + ":" + num + ":" + c && f != ""
    requires Digits(num) && FromDec(num) < NO_LINE
    requires Digits(c) && Word(num, ":") && Word(c, ":")
    ensures Locate(path) == Found(f, FromDec(num)) <==> Clean(f, ':')
  {
    if Clean(f, ':') {
      LocateFull(f, num, c);
      assert Locate(path) == Settle(f, num);
    } else if Locate(path) == Found(f, FromDec(num)) {
      FoundIsClean(path);
    }
  }

  /**
   Printing `f:n:c` and parsing it gives back `(f, n)`, for any digits `c`, exactly when `f` has no
   leading, trailing or doubled colon.
   */
  lemma FullLocationRoundTrip(f: string, n: nat, c: string)
    requires f != "" && n < NO_LINE && c != "" && Digits(c)
    ensures Locate(f + ":" + ToDec(n) + ":" + c) == Found(f, n) <==> Clean(f, ':')
  {
    DigitsAreWords(ToDec(n));
    DigitsAreWords(c);
    FullExactly(f + ":" + ToDec(n) + ":" + c, f, ToDec(n), c);
  }

  /** With a single numeral behind it, a name that holds a colon loses its last piece. */
  lemma ColonIsCut(f: string, num: string)
    requires f != "" && ':' in f && Word(num, ":") && Clean(f, ':')
    ensures Locate(f + ":" + num).Found? ==> Locate(f + ":" + num).filename != f
  {
    var path, ts := f + ":" + num, Tokens(f, ":");
    TokensSnoc(f, num);
    TokensAreWords(f, ":");
    JoinOfCleanTokens(f, ':');
    if |ts| > 1 {
      var init := ts[..|ts| - 1];
      assert (ts + [num])[..|ts| - 1] == init;
      TokensOfJoin(init, ':');
    }
  }

  lemma LocateShort(f: string, num: string)
    requires f != "" && ':' !in f && Digits(num) && Word(num, ":")
    ensures Locate(f + ":" + num) == Settle(f, num)
  {
    TokensOfWord(f, ":");
    TokensSnoc(f, num);
  }

  lemma ShortExactly(path: string, f: string, num: string)
    requires path == f + ":" + num && f != ""
    requires Digits(num) && FromDec(num) < NO_LINE && Word(num, ":")
    ensures Locate(path) == Found(f, FromDec(num)) <==> ':' !in f
  {
    if ':' !in f {
      LocateShort(f, num);
      assert Locate(path) == Settle(f, num);
    } else if Locate(path) == Found(f, FromDec(num)) {
      FoundIsClean(path);
      ColonIsCut(f, num);
    }
  }

  /** Without a column the round trip holds exactly for names that hold no colon. */
  lemma ShortLocationRoundTrip(f: string, n: nat)
    requires f != "" && n < NO_LINE
    ensures Locate(f + ":" + ToDec(n)) == Found(f, n) <==> ':' !in f
  {
    DigitsAreWords(ToDec(n));
    ShortExactly(f + ":" + ToDec(n), f, ToDec(n));
  }

  /** The column, with its colon, if there is one. */
  function Column(c: string): string {
    if c == "" then "" else ":" + c
  }

  /**
   What a well-formed location gives, for a numeral of any length: an exception from 64 bits on, else the
   line cut to 32 bits, and nothing when that is the number for "no line".
   */
  lemma LocationValue(f: string, num: string, c: string)
    requires f != "" && Clean(f, ':') && num != "" && Digits(num) && Digits(c) && (c == "" ==> ':' !in f)
    ensures var n := FromDec(num);
      Locate(f + ":" + num + Column(c)) ==
        if n >= 0x1_0000_0000_0000_0000 then Overflow
        else if n % 0x1_0000_0000 == 0xffff_ffff then Missing
        else Found(f, n % 0x1_0000_0000)
  {
    DigitsAreWords(num);
    if c == "" {
      assert f + ":" + num + Column(c) == f + ":" + num;
      LocateShort(f, num);
    } else {
      DigitsAreWords(c);
      assert f + ":" + num + Column(c) == f + ":" + num + ":" + c;
      LocateFull(f, num, c);
    }
  }

  /** Leading, trailing and doubled colons do not matter. */
  lemma ExtraColonsIgnored(path: string)
    ensures Locate(path) == Locate(Join(Tokens(path, ":"), ":"))
  {
    TokensAreWords(path, ":");
    TokensOfJoin(Tokens(path, ":"), ':');
  }

  /** Nothing else is a location: a path without such colons that is one, or overflows, has this shape. */
  lemma LocationHasShape(path: string) returns (f: string, num: string, c: string)
    requires Clean(path, ':') && !Locate(path).Missing?
    ensures path == f + ":" + num + Column(c)
    ensures f != "" && Clean(f, ':') && num != "" && Digits(num) && Digits(c) && (c == "" ==> ':' !in f)
  {
    hide FromDec;
    var ts := Tokens(path, ":");
    var n := |ts|;
    TokensAreWords(path, ":");
    JoinOfCleanTokens(path, ':');
    hide Tokens, Clean;
    if n == 2 {
      f, num, c := ts[0], ts[1], "";
      assert ts == [f] + [num];
      PairJoined(f, num);
    } else {
      var init := ts[..n - 2];
      f, num, c := Join(init, ":"), ts[n - 2], ts[n - 1];
      assert ts == init + [num] + [c];
      JoinIsClean(init, ':');
      TripleJoined(init, num, c);
    }
  }

  lemma PairJoined(f: string, num: string)
    requires Word(f, ":")
    ensures Join([f] + [num], ":") == f + ":" + num
    ensures ':' !in f && Clean(f, ':')
  {
    JoinSnoc([f], num, ":");
  }

  lemma TripleJoined(init: seq<string>, num: string, c: string)
    requires init != [] && c != ""
    ensures Join(init + [num] + [c], ":") == Join(init, ":") + ":" + num + Column(c)
  {
    JoinSnoc(init, num, ":");
    JoinSnoc(init + [num], c, ":");
  }
}
