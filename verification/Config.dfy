/**
  The key=value configuration of config.cpp, and the edit that install_model.sh
  makes to its file.

  A file is a string; its lines are what std::getline reads from it.
 */
module Config {
  type Pair = (string, string)

  // ---------------------------------------------------------------- lines and characters

  /** Index of the first c in s, or |s|. */
  function Find(s: string, c: char): (i: nat)
    ensures i <= |s| && c !in s[..i] && (i < |s| ==> s[i] == c)
  {
    if s == "" || s[0] == c then 0
    else
      var i := Find(s[1..], c);
      assert s[..i + 1] == [s[0]] + s[1..][..i];
      i + 1
  }

  /** What getline reads: a last line without its newline counts if it is not empty. */
  function Lines(text: string): seq<string>
    decreases |text|
  {
    if text == "" then []
    else
      var i := Find(text, '\n');
      [text[..i]] + Lines(if i < |text| then text[i + 1..] else "")
  }

  predicate Blank(c: char) {
    c == ' ' || c == '\t' || c == '\r' || c == '\n'
  }

  function TrimLeft(s: string): string {
    if s != "" && Blank(s[0]) then TrimLeft(s[1..]) else s
  }

  function TrimRight(s: string): string {
    if s != "" && Blank(s[|s| - 1]) then TrimRight(s[..|s| - 1]) else s
  }

  /** Config::trim */
  function Trim(s: string): string {
    TrimRight(TrimLeft(s))
  }

  predicate Trimmed(s: string) {
    s == "" || (!Blank(s[0]) && !Blank(s[|s| - 1]))
  }

  lemma {:induction false} TrimLeftSplits(s: string) returns (b: string)
    ensures s == b + TrimLeft(s) && forall c <- b :: Blank(c)
    ensures TrimLeft(s) != "" ==> !Blank(TrimLeft(s)[0])
  {
    if s != "" && Blank(s[0]) {
      b := TrimLeftSplits(s[1..]);
      b := [s[0]] + b;
    } else {
      b := "";
    }
  }

  lemma {:induction false} TrimRightSplits(s: string) returns (b: string)
    ensures s == TrimRight(s) + b && forall c <- b :: Blank(c)
    ensures TrimRight(s) != "" ==> !Blank(TrimRight(s)[|TrimRight(s)| - 1])
    ensures s != "" && !Blank(s[0]) ==> TrimRight(s) != "" && TrimRight(s)[0] == s[0]
  {
    if s != "" && Blank(s[|s| - 1]) {
      b := TrimRightSplits(s[..|s| - 1]);
      b := b + [s[|s| - 1]];
    } else {
      b := "";
    }
  }

  /** Trimming keeps a core between two runs of blanks, and the core is trimmed. */
  lemma TrimSplits(s: string) returns (a: string, b: string)
    ensures s == a + Trim(s) + b && Trimmed(Trim(s))
    ensures (forall c <- a :: Blank(c)) && (forall c <- b :: Blank(c))
  {
    a := TrimLeftSplits(s);
    b := TrimRightSplits(TrimLeft(s));
  }

  lemma TrimOfTrimmed(s: string)
    requires Trimmed(s)
    ensures Trim(s) == s
  {
  }

  lemma {:induction false} TrimLeftDrops(a: string, s: string)
    requires forall c <- a :: Blank(c)
    ensures TrimLeft(a + s) == TrimLeft(s)
  {
    if a == "" {
      assert a + s == s;
    } else {
      assert a[0] in a;
      assert (a + s)[1..] == a[1..] + s;
      TrimLeftDrops(a[1..], s);
    }
  }

  lemma {:induction false} TrimRightDrops(s: string, b: string)
    requires forall c <- b :: Blank(c)
    ensures TrimRight(s + b) == TrimRight(s)
  {
    if b == "" {
      assert s + b == s;
    } else {
      assert b[|b| - 1] in b;
      assert (s + b)[..|s + b| - 1] == s + b[..|b| - 1];
      TrimRightDrops(s, b[..|b| - 1]);
    }
  }

  /** Blanks around a text do not change what trimming keeps. */
  lemma TrimDrops(a: string, s: string, b: string)
    requires (forall c <- a :: Blank(c)) && forall c <- b :: Blank(c)
    ensures Trim(a + s + b) == Trim(s)
  {
    assert a + s + b == a + (s + b);
    TrimLeftDrops(a, s + b);
    var l := TrimLeftSplits(s);
    if TrimLeft(s) == "" {
      TrimLeftDrops(l, b);
      assert s + b == l + b;
      TrimLeftDrops(b, "");
      assert b == b + "";
    } else {
      assert s + b == l + (TrimLeft(s) + b);
      TrimLeftDrops(l, TrimLeft(s) + b);
      TrimRightDrops(TrimLeft(s), b);
    }
  }

  // ---------------------------------------------------------------- one line

  datatype Binding = NoBinding | Bind(key: string, value: string)

  function StripComment(line: string): string {
    line[..Find(line, '#')]
  }

  /** What one line of the file binds. */
  function ParseLine(line: string): Binding {
    var l := Trim(StripComment(line));
    var eq := Find(l, '=');
    if l == "" || eq == |l| then NoBinding
    else
      var key := Trim(l[..eq]);
      if key == "" then NoBinding else Bind(key, Trim(l[eq + 1..]))
  }

  function Apply(data: map<string, string>, b: Binding): map<string, string> {
    match b
    case NoBinding => data
    case Bind(k, v) => data[k := v]
  }

  function LoadLines(data: map<string, string>, lines: seq<string>): map<string, string>
    decreases |lines|
  {
    if lines == [] then data else LoadLines(Apply(data, ParseLine(lines[0])), lines[1..])
  }

  // ---------------------------------------------------------------- the class

  datatype File = Missing | Text(text: string)

  lemma TrimLeftStep(s: string)
    ensures TrimLeft(s) == if s != "" && Blank(s[0]) then TrimLeft(s[1..]) else s
  {
  }

  lemma TrimRightStep(s: string)
    ensures TrimRight(s) == if s != "" && Blank(s[|s| - 1]) then TrimRight(s[..|s| - 1]) else s
  {
  }

  /** Config::trim as written: find_first_not_of and find_last_not_of, then a substring. */
  method TrimString(s: string) returns (r: string)
    ensures r == Trim(s)
  {
    hide TrimLeft, TrimRight;
    var start := 0;
    assert s[start..] == s;
    while start < |s| && Blank(s[start])
      invariant start <= |s| && TrimLeft(s) == TrimLeft(s[start..])
    {
      TrimLeftStep(s[start..]);
      assert s[start..][1..] == s[start + 1..];
      start := start + 1;
    }
    TrimLeftStep(s[start..]);
    if start == |s| {
      TrimRightStep("");
      return "";
    }
    var end := |s|;
    assert s[start..end] == s[start..];
    while Blank(s[end - 1])
      invariant start < end <= |s| && !Blank(s[start])
      invariant Trim(s) == TrimRight(s[start..end])
      decreases end
    {
      TrimRightStep(s[start..end]);
      assert s[start..end][..end - start - 1] == s[start..end - 1];
      end := end - 1;
    }
    r := s[start..end];
    TrimRightStep(r);
  }

  class Configuration {
    var data: map<string, string>

    constructor ()
      ensures data == map[]
    {
      data := map[];
    }

    /** Config::load; a file that cannot be opened changes nothing. */
    method Load(file: File) returns (status: int)
      modifies this
      ensures file.Missing? ==> status == -1 && data == old(data)
      ensures file.Text? ==> status == 0 && data == LoadLines(old(data), Lines(file.text))
    {
      if file.Missing? {
        return -1;
      }
      var lines, i := Lines(file.text), 0;
      while i < |lines|
        invariant 0 <= i <= |lines|
        invariant LoadLines(data, lines[i..]) == LoadLines(old(data), lines)
      {
        LoadLine(lines[i]);
        i := i + 1;
      }
      status := 0;
    }

    /** The body of the loop, editing its line in place. */
    method LoadLine(text: string)
      modifies this
      ensures data == Apply(old(data), ParseLine(text))
    {
      var line := text;
      var pos := Find(line, '#');
      if pos < |line| {
        line := line[..pos];
      }
      assert line == StripComment(text);
      line := TrimString(line);
      if line == "" {
        return;
      }
      var eq := Find(line, '=');
      if eq == |line| {
        return;
      }
      var key := TrimString(line[..eq]);
      var val := TrimString(line[eq + 1..]);
      if key != "" {
        data := data[key := val];
      }
    }

    function Get(key: string, def: string): string
      reads this
    {
      if key in data then data[key] else def
    }

    predicate Has(key: string)
      reads this
    {
      key in data
    }
  }

  // ---------------------------------------------------------------- loading in turn

  /** Loading two line sequences in turn is loading their concatenation. */
  lemma {:induction false} LoadInTurn(data: map<string, string>, a: seq<string>, b: seq<string>)
    ensures LoadLines(LoadLines(data, a), b) == LoadLines(data, a + b)
    decreases |a|
  {
    hide ParseLine, Apply;
    if a == [] {
      assert a + b == b;
    } else {
      LoadInTurn(Apply(data, ParseLine(a[0])), a[1..], b);
      assert (a + b)[1..] == a[1..] + b;
    }
  }

  predicate Binds(line: string, k: string) {
    ParseLine(line).Bind? && ParseLine(line).key == k
  }

  /** The last line that binds k, or -1. */
  function LastBinder(lines: seq<string>, k: string): (b: int)
    ensures -1 <= b < |lines| && (b >= 0 ==> Binds(lines[b], k))
    ensures forall i :: b < i < |lines| ==> !Binds(lines[i], k)
    decreases |lines|
  {
    var n := |lines|;
    if n == 0 then -1
    else if Binds(lines[n - 1], k) then n - 1
    else LastBinder(lines[..n - 1], k)
  }

  /** The last binding of a key wins, and a key that no line binds keeps what it had. */
  lemma {:induction false} LastBindingWins(data: map<string, string>, lines: seq<string>, k: string)
    ensures var b, r := LastBinder(lines, k), LoadLines(data, lines);
            if b >= 0 then k in r && r[k] == ParseLine(lines[b]).value
            else (k in r <==> k in data) && (k in r ==> r[k] == data[k])
    decreases |lines|
  {
    hide ParseLine;
    if lines != [] {
      var n := |lines|;
      var init, last := lines[..n - 1], lines[n - 1];
      assert lines == init + [last];
      LoadInTurn(data, init, [last]);
      assert LoadLines(LoadLines(data, init), [last]) == Apply(LoadLines(data, init), ParseLine(last));
      LastBindingWins(data, init, k);
    }
  }

  /** What has and get answer after a load, from the lines alone. */
  lemma LoadedLookup(c: Configuration, before: map<string, string>, lines: seq<string>, key: string, def: string)
    requires c.data == LoadLines(before, lines)
    ensures c.Has(key) <==> LastBinder(lines, key) >= 0 || key in before
    ensures c.Get(key, def)
            == if LastBinder(lines, key) >= 0 then ParseLine(lines[LastBinder(lines, key)]).value
               else if key in before then before[key]
               else def
  {
    hide ParseLine, LastBinder;
    LastBindingWins(before, lines, key);
  }

  lemma {:induction false} FirstOccurrence(s: string, c: char, i: nat)
    requires i < |s| && s[i] == c && c !in s[..i]
    ensures Find(s, c) == i
  {
    if i > 0 {
      assert s[0] == s[..i][0];
      assert s[1..][..i - 1] == s[..i][1..];
      FirstOccurrence(s[1..], c, i - 1);
    }
  }

  lemma FirstLine(text: string, i: nat)
    requires i < |text| && text[i] == '\n' && '\n' !in text[..i]
    ensures Lines(text) == [text[..i]] + Lines(text[i + 1..])
  {
    FirstOccurrence(text, '\n', i);
  }

  lemma FirstLineOfConcat(a: string, b: string, i: nat)
    requires i < |a| && a[i] == '\n' && '\n' !in a[..i]
    ensures Lines(a + b) == [a[..i]] + Lines(a[i + 1..] + b)
  {
    hide Lines;
    assert (a + b)[..i] == a[..i];
    assert (a + b)[i + 1..] == a[i + 1..] + b;
    FirstLine(a + b, i);
  }

  lemma LineEnd(a: string) returns (i: nat)
    requires a != "" && a[|a| - 1] == '\n'
    ensures i < |a| && a[i] == '\n' && '\n' !in a[..i]
    ensures a[i + 1..] == "" || a[i + 1..][|a[i + 1..]| - 1] == '\n'
  {
    i := Find(a, '\n');
    assert a[..|a|][|a| - 1] == '\n';
  }

  lemma Associate<T>(a: seq<T>, b: seq<T>, c: seq<T>)
    ensures a + (b + c) == (a + b) + c
  {
  }

  lemma {:induction false} LinesOfConcat(a: string, b: string)
    requires a == "" || a[|a| - 1] == '\n'
    ensures Lines(a + b) == Lines(a) + Lines(b)
    decreases |a|
  {
    if a == "" {
      assert a + b == b;
    } else {
      var i := LineEnd(a);
      LinesOfConcat(a[i + 1..], b);
      hide *;
      FirstLine(a, i);
      FirstLineOfConcat(a, b, i);
      Associate([a[..i]], Lines(a[i + 1..]), Lines(b));
    }
  }

  lemma NoOccurrence(s: string, c: char)
    requires c !in s
    ensures Find(s, c) == |s|
  {
  }

  /** Loading two files in turn is loading the file that holds one after the other. */
  lemma FilesInTurn(data: map<string, string>, a: string, b: string)
    requires a == "" || a[|a| - 1] == '\n'
    ensures LoadLines(LoadLines(data, Lines(a)), Lines(b)) == LoadLines(data, Lines(a + b))
  {
    LinesOfConcat(a, b);
    LoadInTurn(data, Lines(a), Lines(b));
  }

  // ---------------------------------------------------------------- round trip

  predicate PlainValue(v: string) {
    Trimmed(v) && '#' !in v && '\n' !in v
  }

  predicate PlainKey(k: string) {
    PlainValue(k) && k != "" && '=' !in k
  }

  function LineOf(p: Pair): string {
    p.0 + "=" + p.1
  }

  /** The printing of bindings, one key=value line each. */
  function Print(ps: seq<Pair>): string {
    if ps == [] then "" else LineOf(ps[0]) + "\n" + Print(ps[1..])
  }

  function Bindings(data: map<string, string>, ps: seq<Pair>): map<string, string>
    decreases |ps|
  {
    if ps == [] then data else Bindings(data[ps[0].0 := ps[0].1], ps[1..])
  }

  lemma TrimEmptyExactly(s: string)
    ensures Trim(s) == "" <==> forall c <- s :: Blank(c)
  {
    var a, b := TrimSplits(s);
    assert Trim(s) == "" ==> s == a + b;
    if forall c <- s :: Blank(c) {
      assert s + "" == s;
      TrimLeftDrops(s, "");
    }
  }

  /** Blanks before and after a text move its first '='. */
  lemma FindInCore(a: string, t: string, b: string)
    requires (forall x <- a :: Blank(x)) && forall x <- b :: Blank(x)
    ensures var i, e := Find(t, '='), Find(a + t + b, '=');
            e == if i == |t| then |a + t + b| else |a| + i
  {
    var i, c := Find(t, '='), a + t + b;
    assert '=' !in a && '=' !in b;
    hide Blank, Find;
    if i == |t| {
      assert t[..i] == t;
      assert '=' !in c;
      NoOccurrence(c, '=');
    } else {
      assert c[|a| + i] == t[i];
      assert c[..|a| + i] == a + t[..i];
      FirstOccurrence(c, '=', |a| + i);
    }
  }

  lemma SidesOfCore(a: string, t: string, b: string, i: nat)
    requires i < |t| && (forall x <- a :: Blank(x)) && forall x <- b :: Blank(x)
    ensures Trim((a + t + b)[..|a| + i]) == Trim(t[..i])
    ensures Trim((a + t + b)[|a| + i + 1..]) == Trim(t[i + 1..])
  {
    hide Trim, Blank;
    var c := a + t + b;
    assert c[..|a| + i] == a + t[..i] + "";
    TrimDrops(a, t[..i], "");
    assert c[|a| + i + 1..] == "" + t[i + 1..] + b;
    TrimDrops("", t[i + 1..], b);
  }

  lemma CoreSides(a: string, t: string, b: string)
    requires (forall x <- a :: Blank(x)) && forall x <- b :: Blank(x)
    ensures var c := a + t + b;
            var e, i := Find(c, '='), Find(t, '=');
            (e == |c| <==> i == |t|)
            && (i < |t| ==> Trim(c[..e]) == Trim(t[..i]) && Trim(c[e + 1..]) == Trim(t[i + 1..]))
  {
    hide *;
    FindInCore(a, t, b);
    var i := Find(t, '=');
    if i < |t| {
      SidesOfCore(a, t, b, i);
    }
  }

  lemma ParseCore(line: string)
    ensures var t := Trim(StripComment(line));
            var i := Find(t, '=');
            ParseLine(line) == if i == |t| || Trim(t[..i]) == "" then NoBinding
                               else Bind(Trim(t[..i]), Trim(t[i + 1..]))
  {
    hide Trim, StripComment;
  }

  /**
    What a line binds, without the trimming of the whole line: nothing if the text before the
    comment has no '=' or only blanks before its first '='; otherwise the two sides of that
    '=', each without its outer blanks.
   */
  lemma ParseLineExactly(line: string)
    ensures var c := StripComment(line);
            var e := Find(c, '=');
            ParseLine(line) == if e == |c| || (forall x <- c[..e] :: Blank(x)) then NoBinding
                               else Bind(Trim(c[..e]), Trim(c[e + 1..]))
  {
    var c := StripComment(line);
    var a, b := TrimSplits(c);
    CoreSides(a, Trim(c), b);
    ParseCore(line);
    hide *;
    var e := Find(c, '=');
    TrimEmptyExactly(c[..e]);
  }

  lemma CommentOfKeyLine(k: string, v: string)
    requires '#' !in k
    ensures StripComment(LineOf((k, v))) == LineOf((k, StripComment(v)))
  {
    var i := Find(v, '#');
    var line := LineOf((k, v));
    assert line[..|k| + 1 + i] == LineOf((k, v[..i]));
    if i < |v| {
      FirstOccurrence(line, '#', |k| + 1 + i);
    } else {
      assert v[..i] == v;
      NoOccurrence(line, '#');
    }
  }

  lemma FirstOccurrenceAfter(k: string, v: string)
    requires '=' !in k
    ensures Find(k + "=" + v, '=') == |k|
  {
    assert (k + "=" + v)[..|k|] == k;
    FirstOccurrence(k + "=" + v, '=', |k|);
  }

  /** A line that starts with a plain key and '=' binds that key to the rest, comment and outer blanks removed. */
  lemma KeyLineParses(k: string, v: string)
    requires PlainKey(k)
    ensures ParseLine(LineOf((k, v))) == Bind(k, Trim(StripComment(v)))
  {
    ParseLineExactly(LineOf((k, v)));
    CommentOfKeyLine(k, v);
    var w := StripComment(v);
    FirstOccurrenceAfter(k, w);
    TrimOfTrimmed(k);
    hide ParseLine, StripComment, Trim;
    assert k[0] in k;
    assert LineOf((k, w))[..|k|] == k && LineOf((k, w))[|k| + 1..] == w;
  }

  /** A printed line parses to its key and value: a value may contain '=', and it may be empty. */
  lemma PrintedLineParses(k: string, v: string)
    requires PlainKey(k) && PlainValue(v)
    ensures ParseLine(LineOf((k, v))) == Bind(k, v)
  {
    KeyLineParses(k, v);
    NoOccurrence(v, '#');
    TrimOfTrimmed(v);
  }

  lemma OneLine(a: string, rest: string)
    requires '\n' !in a
    ensures Lines(a + "\n" + rest) == [a] + Lines(rest)
  {
    hide Lines;
    var t := a + "\n" + rest;
    assert t[..|a|] == a && t[|a| + 1..] == rest;
    FirstLine(t, |a|);
  }

  lemma {:induction false} PrintThenLoad(data: map<string, string>, ps: seq<Pair>)
    requires forall p <- ps :: PlainKey(p.0) && PlainValue(p.1)
    ensures LoadLines(data, Lines(Print(ps))) == Bindings(data, ps)
    decreases |ps|
  {
    hide ParseLine;
    if ps != [] {
      assert ps[0] in ps;
      OneLine(LineOf(ps[0]), Print(ps[1..]));
      PrintedLineParses(ps[0].0, ps[0].1);
      PrintThenLoad(data[ps[0].0 := ps[0].1], ps[1..]);
    }
  }

  /** ps lists map m: each key once. */
  ghost predicate Lists(ps: seq<Pair>, m: map<string, string>) {
    && (forall i, j :: 0 <= i < j < |ps| ==> ps[i].0 != ps[j].0)
    && (forall p <- ps :: p.0 in m && m[p.0] == p.1)
    && forall k <- m :: (k, m[k]) in ps
  }

  lemma {:induction false} BindingsLookup(data: map<string, string>, ps: seq<Pair>, k: string)
    requires forall i, j :: 0 <= i < j < |ps| ==> ps[i].0 != ps[j].0
    ensures var r := Bindings(data, ps);
            k in r <==> k in data || exists i :: 0 <= i < |ps| && ps[i].0 == k
    ensures forall i :: 0 <= i < |ps| && ps[i].0 == k ==> Bindings(data, ps)[k] == ps[i].1
    ensures (forall i :: 0 <= i < |ps| ==> ps[i].0 != k) && k in data ==> Bindings(data, ps)[k] == data[k]
    decreases |ps|
  {
    if ps != [] {
      BindingsLookup(data[ps[0].0 := ps[0].1], ps[1..], k);
      assert forall i :: 1 <= i < |ps| ==> ps[i] == ps[1..][i - 1];
    }
  }

  /** Round trip: loading the printing of any map of plain keys and values into an empty object gives the map back. */
  lemma RoundTrip(m: map<string, string>, ps: seq<Pair>)
    requires Lists(ps, m) && forall k <- m :: PlainKey(k) && PlainValue(m[k])
    ensures LoadLines(map[], Lines(Print(ps))) == m
  {
    PrintThenLoad(map[], ps);
    var r := Bindings(map[], ps);
    forall k: string
      ensures k in r <==> k in m
      ensures k in m ==> r[k] == m[k]
    {
      BindingsLookup(map[], ps, k);
      if k in m {
        assert (k, m[k]) in ps;
      }
    }
  }
}
