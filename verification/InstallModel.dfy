/**
  install_model.sh: the edit of the model_path line, the file it writes when there is
  none, and what Config::load then reads from either.

  sed expands & in the replacement to the matched text and refuses a replacement that
  runs over a newline. A name with a backslash or '|' makes the command another sed
  script; what sed does with that is a parameter.
 */
module InstallModel {
  import opened Config
  import opened Kernel

  const DESTDIR := "/usr/local/share/aie-os"
  const KEY := "model_path"

  function Target(name: string): string {
    DESTDIR + "/" + name
  }

  /** The command is the one substitution the script means. */
  predicate Substitutes(name: string) {
    '\\' !in name && '|' !in name
  }

  /** The replacement text for one match. */
  function Expand(replacement: string, matched: string): string {
    if replacement == "" then ""
    else
      (if replacement[0] == '&' then matched else [replacement[0]]) + Expand(replacement[1..], matched)
  }

  predicate Matches(line: string) {
    KEY + "=" <= line
  }

  /** s|^model_path=.*|model_path=path| on one line */
  function EditLine(line: string, path: string): string {
    if Matches(line) then LineOf((KEY, Expand(path, line))) else line
  }

  /** sed over a whole file; a last line without a newline stays without one. */
  function Edit(text: string, path: string): string
    decreases |text|
  {
    if text == "" then ""
    else
      var i := Find(text, '\n');
      EditLine(text[..i], path) + if i < |text| then "\n" + Edit(text[i + 1..], path) else ""
  }

  function FreshFile(path: string): string {
    LineOf((KEY, path)) + "\n" + (LineOf(("classifier", "onnx")) + "\n")
  }

  /** sed reading its input line by line. */
  method Sed(text: string, path: string) returns (out: string)
    ensures out == Edit(text, path)
  {
    hide EditLine;
    out := "";
    var rest := text;
    while rest != ""
      invariant out + Edit(rest, path) == Edit(text, path)
      decreases |rest|
    {
      var i := Find(rest, '\n');
      var line := EditLine(rest[..i], path);
      if i < |rest| {
        ghost var tail := Edit(rest[i + 1..], path);
        assert out + (line + ("\n" + tail)) == out + line + "\n" + tail;
        out := out + line + "\n";
        rest := rest[i + 1..];
      } else {
        out := out + line;
        rest := "";
      }
    }
  }

  class Host {
    var config: File

    constructor (file: File)
      ensures config == file
    {
      config := file;
    }

    /** The last part of the script: edit the configuration that is there, or write a new one. When sed fails
        the script stops with its status and the file is as it was. foreign is the file that another sed
        script leaves, or None if it fails. */
    method UpdateConfig(name: string, foreign: Option<string>) returns (ok: bool)
      modifies this
      ensures !ok ==> config == old(config)
      ensures old(config).Missing? ==> ok && config == Text(FreshFile(Target(name)))
      ensures old(config).Text? && '\\' !in name && '|' !in name ==>
                (ok <==> '\n' !in name) && (ok ==> config == Text(Edit(old(config).text, Target(name))))
      ensures old(config).Text? && ('\\' in name || '|' in name) ==>
                (ok <==> foreign.Some?) && (ok ==> config == Text(foreign.value))
    {
      hide Target, Edit, FreshFile;
      if config.Missing? {
        config := Text(FreshFile(Target(name)));
        return true;
      }
      if !Substitutes(name) {
        if foreign.None? {
          return false;
        }
        config := Text(foreign.value);
        return true;
      }
      if '\n' in name {
        return false;
      }
      var edited := Sed(config.text, Target(name));
      config := Text(edited);
      ok := true;
    }
  }

  // ---------------------------------------------------------------- lines of the edited file

  function EditLines(lines: seq<string>, path: string): (r: seq<string>)
    ensures |r| == |lines| && forall i :: 0 <= i < |r| ==> r[i] == EditLine(lines[i], path)
  {
    seq(|lines|, i requires 0 <= i < |lines| => EditLine(lines[i], path))
  }

  lemma KeyIsPlain()
    ensures PlainKey(KEY)
  {
  }

  lemma {:induction false} ExpandHasNoNewline(path: string, line: string)
    requires '\n' !in path && '\n' !in line
    ensures '\n' !in Expand(path, line)
  {
    if path != "" {
      ExpandHasNoNewline(path[1..], line);
    }
  }

  lemma EditedLineIsOneLine(line: string, path: string)
    requires '\n' !in path && '\n' !in line
    ensures '\n' !in EditLine(line, path)
    ensures line != "" ==> EditLine(line, path) != ""
  {
    ExpandHasNoNewline(path, line);
    KeyIsPlain();
  }

  lemma LoneLine(line: string)
    requires line != "" && '\n' !in line
    ensures Lines(line) == [line]
  {
    NoOccurrence(line, '\n');
    assert line[..|line|] == line;
  }

  lemma EditOfLast(text: string, path: string)
    requires '\n' !in path
    requires text != "" && Find(text, '\n') == |text|
    ensures Lines(Edit(text, path)) == EditLines(Lines(text), path)
  {
    assert text[..|text|] == text;
    EditedLineIsOneLine(text, path);
    hide EditLine, Lines;
    assert Edit(text, path) == EditLine(text, path);
    LoneLine(text);
    LoneLine(EditLine(text, path));
  }

  lemma EditOfFirst(text: string, path: string, i: nat)
    requires '\n' !in path
    requires i < |text| && i == Find(text, '\n')
    ensures Lines(text) == [text[..i]] + Lines(text[i + 1..])
    ensures Lines(Edit(text, path)) == [EditLine(text[..i], path)] + Lines(Edit(text[i + 1..], path))
  {
    EditedLineIsOneLine(text[..i], path);
    hide EditLine, Lines;
    var e, rest := EditLine(text[..i], path), Edit(text[i + 1..], path);
    var t := Edit(text, path);
    assert t == e + ("\n" + rest);
    assert t[..|e|] == e && t[|e|] == '\n';
    assert t[|e| + 1..] == rest;
    FirstLine(t, |e|);
    FirstLine(text, i);
  }

  lemma EditLinesCons(line: string, lines: seq<string>, path: string)
    ensures EditLines([line] + lines, path) == [EditLine(line, path)] + EditLines(lines, path)
  {
    hide EditLine;
  }

  /** Editing line by line is editing the lines. */
  lemma {:induction false} LinesOfEdit(text: string, path: string)
    requires '\n' !in path
    ensures Lines(Edit(text, path)) == EditLines(Lines(text), path)
    decreases |text|
  {
    if text != "" {
      var i := Find(text, '\n');
      if i < |text| {
        LinesOfEdit(text[i + 1..], path);
        EditOfFirst(text, path, i);
        EditLinesCons(text[..i], Lines(text[i + 1..]), path);
        hide *;
      } else {
        EditOfLast(text, path);
      }
    }
  }

  // ---------------------------------------------------------------- what the edit changes

  /** Which lines sed rewrites: those that start with "model_path=", whatever follows, and no others. */
  lemma EditedLinesExactly(lines: seq<string>, path: string, i: nat)
    requires i < |lines|
    ensures EditLines(lines, path)[i]
            == if "model_path=" <= lines[i] then "model_path=" + Expand(path, lines[i]) else lines[i]
  {
    hide Expand;
    assert KEY + "=" == "model_path=";
    if "model_path=" <= lines[i] {
      assert LineOf((KEY, Expand(path, lines[i]))) == "model_path=" + Expand(path, lines[i]);
    }
  }

  /** A matching line binds model_path before and after; to what, afterwards, the path decides. */
  lemma EditedLineParses(line: string, path: string)
    requires Matches(line)
    ensures Binds(line, KEY)
    ensures ParseLine(EditLine(line, path)) == Bind(KEY, Trim(StripComment(Expand(path, line))))
  {
    KeyIsPlain();
    var v := line[|KEY| + 1..];
    assert line == LineOf((KEY, v));
    KeyLineParses(KEY, v);
    KeyLineParses(KEY, Expand(path, line));
  }

  lemma EditKeepsBinders(line: string, path: string, k: string)
    ensures Binds(EditLine(line, path), k) <==> Binds(line, k)
    ensures k != KEY && Binds(line, k) ==> EditLine(line, path) == line
  {
    hide ParseLine;
    if Matches(line) {
      EditedLineParses(line, path);
    }
  }

  lemma {:induction false} EditKeepsLastBinder(lines: seq<string>, path: string, k: string)
    ensures LastBinder(EditLines(lines, path), k) == LastBinder(lines, k)
    decreases |lines|
  {
    hide EditLine, Binds;
    if lines != [] {
      var n := |lines|;
      EditKeepsBinders(lines[n - 1], path, k);
      assert EditLines(lines, path)[..n - 1] == EditLines(lines[..n - 1], path);
      EditKeepsLastBinder(lines[..n - 1], path, k);
    }
  }

  /** The edit changes no other key, and binds model_path afterwards exactly when it was bound before. */
  lemma EditChangesOnlyPath(data: map<string, string>, text: string, path: string, k: string)
    requires '\n' !in path
    ensures var before, after := LoadLines(data, Lines(text)), LoadLines(data, Lines(Edit(text, path)));
            (k in after <==> k in before) && (k != KEY && k in before ==> after[k] == before[k])
  {
    var lines := Lines(text);
    LinesOfEdit(text, path);
    EditKeepsLastBinder(lines, path, k);
    LastBindingWins(data, lines, k);
    LastBindingWins(data, EditLines(lines, path), k);
    var b := LastBinder(lines, k);
    if b >= 0 {
      EditKeepsBinders(lines[b], path, k);
    }
  }

  // ---------------------------------------------------------------- when the new path arrives

  /** The path comes through sed and the parser unchanged. */
  predicate Survives(path: string) {
    '#' !in path && '&' !in path && (path != "" ==> !Blank(path[|path| - 1]))
  }

  lemma {:induction false} ExpandNothing(path: string, line: string)
    requires '&' !in path
    ensures Expand(path, line) == path
  {
    if path != "" {
      assert path[0] in path;
      ExpandNothing(path[1..], line);
    }
  }

  lemma {:induction false} ExpandFirst(path: string, line: string, j: nat)
    requires j < |path| && path[j] == '&' && '&' !in path[..j]
    ensures path[..j] + line <= Expand(path, line)
  {
    if j > 0 {
      assert path[0] == path[..j][0];
      assert path[1..][..j - 1] == path[..j][1..];
      ExpandFirst(path[1..], line, j - 1);
    }
  }

  /** Up to a position past which no comment has begun and where no blank stands, parsing changes nothing. */
  lemma ParseKeepsUpTo(s: string, j: nat)
    requires j < |s| && '#' !in s[..j + 1] && !Blank(s[0]) && !Blank(s[j])
    ensures var t := Trim(StripComment(s)); j < |t| && t[j] == s[j]
  {
    var f := Find(s, '#');
    assert forall i :: 0 <= i <= j ==> s[i] == s[..j + 1][i];
    assert f > j;
    var w := s[..f];
    assert TrimLeft(w) == w;
    var b := TrimRightSplits(w);
    assert forall i :: |TrimRight(w)| <= i < |w| ==> w[i] == b[i - |TrimRight(w)|];
  }

  lemma ParsedValueIsPlain(s: string)
    ensures var t := Trim(StripComment(s)); Trimmed(t) && '#' !in t
  {
    var a, b := TrimSplits(StripComment(s));
  }

  lemma MatchStartsWithM(line: string)
    requires Matches(line)
    ensures line != "" && line[0] == 'm'
  {
    assert (KEY + "=")[0] == 'm';
  }

  /** Exactly which paths a matching line is set to. */
  lemma EditedValueExactly(line: string, path: string)
    requires Matches(line) && path != "" && path[0] == '/'
    ensures Trim(StripComment(Expand(path, line))) == path <==> Survives(path)
  {
    var e := Expand(path, line);
    if Survives(path) {
      ExpandNothing(path, line);
      NoOccurrence(path, '#');
      assert path[..|path|] == path;
      TrimOfTrimmed(path);
    } else {
      ParsedValueIsPlain(e);
      if '#' !in path && !Blank(path[|path| - 1]) {
        var j := Find(path, '&');
        assert path[..|path|] == path;
        MatchStartsWithM(line);
        ExpandFirst(path, line, j);
        hide *;
        assert (path[..j] + line)[j] == line[0];
        assert e[..j + 1] == path[..j] + [line[0]];
        assert !Blank('m');
        ParseKeepsUpTo(e, j);
      }
    }
  }

  lemma TargetForm(name: string)
    ensures Target(name) != "" && Target(name)[0] == '/'
    ensures '\n' !in name ==> '\n' !in Target(name)
    ensures Survives(Target(name)) <==> Survives(name)
  {
    var p := DESTDIR + "/";
    assert Target(name) == p + name && p[|p| - 1] == '/';
    assert '#' !in p && '&' !in p && '\n' !in p;
  }

  lemma PathText(name: string)
    ensures Target(name) == "/usr/local/share/aie-os/" + name
  {
    assert DESTDIR + "/" == "/usr/local/share/aie-os/";
  }

  lemma SurvivesExactly(name: string)
    ensures Survives(name)
            <==> '#' !in name && '&' !in name && (name != "" ==> name[|name| - 1] !in " \t\r\n")
  {
  }

  /**
    The edit law. If the line that binds model_path last starts with "model_path=", then after
    the edit the loaded value is the new path exactly if the name has no '#' and no '&' and
    does not end in a blank. If it does not start so, the loaded value is what it was.
   */
  lemma EditSetsPath(data: map<string, string>, text: string, name: string)
    requires '\n' !in name
    requires LastBinder(Lines(text), "model_path") >= 0
    ensures var path := "/usr/local/share/aie-os/" + name;
            var last := Lines(text)[LastBinder(Lines(text), "model_path")];
            var before, after := LoadLines(data, Lines(text)), LoadLines(data, Lines(Edit(text, path)));
            && path == Target(name) && "model_path" in before && "model_path" in after
            && ("model_path=" <= last ==>
                  (after["model_path"] == path
                   <==> '#' !in name && '&' !in name && (name != "" ==> name[|name| - 1] !in " \t\r\n")))
            && (!("model_path=" <= last) ==> after["model_path"] == before["model_path"])
  {
    var path, lines := Target(name), Lines(text);
    PathText(name);
    TargetForm(name);
    assert KEY == "model_path" && KEY + "=" == "model_path=";
    LinesOfEdit(text, path);
    EditKeepsLastBinder(lines, path, KEY);
    LastBindingWins(data, lines, KEY);
    LastBindingWins(data, EditLines(lines, path), KEY);
    var last := lines[LastBinder(lines, KEY)];
    if Matches(last) {
      EditedLineParses(last, path);
      EditedValueExactly(last, path);
    }
    SurvivesExactly(name);
  }

  /** A file that binds model_path nowhere still binds it nowhere after the edit. */
  lemma EditAddsNothing(text: string, name: string)
    requires '\n' !in name && LastBinder(Lines(text), KEY) < 0
    ensures KEY !in LoadLines(map[], Lines(Edit(text, Target(name))))
  {
    TargetForm(name);
    EditChangesOnlyPath(map[], text, Target(name), KEY);
    LastBindingWins(map[], Lines(text), KEY);
  }

  lemma LoadTwo(l0: string, l1: string)
    ensures LoadLines(map[], [l0, l1]) == Apply(Apply(map[], ParseLine(l0)), ParseLine(l1))
  {
    hide ParseLine, Apply;
    assert [l0, l1][1..] == [l1] && [l1][1..] == [];
    var data := Apply(map[], ParseLine(l0));
    assert LoadLines(map[], [l0, l1]) == LoadLines(data, [l1]);
    assert LoadLines(data, [l1]) == LoadLines(Apply(data, ParseLine(l1)), []);
  }

  lemma NoLines()
    ensures Lines("") == []
  {
  }

  lemma TwoLines(a: string, b: string)
    requires '\n' !in a && '\n' !in b
    ensures Lines(a + "\n" + (b + "\n")) == [a, b]
  {
    hide Lines;
    OneLine(a, b + "\n");
    OneLine(b, "");
    assert b + "\n" + "" == b + "\n";
    NoLines();
  }

  /** The fresh file loads to two bindings; sed does not expand its path, so only comments and outer blanks matter. */
  lemma FreshFileLoads(path: string)
    requires '\n' !in path
    ensures LoadLines(map[], Lines(FreshFile(path)))
            == map["model_path" := Trim(StripComment(path)), "classifier" := "onnx"]
  {
    KeyIsPlain();
    KeyLineParses(KEY, path);
    assert PlainKey("classifier") && PlainValue("onnx");
    PrintedLineParses("classifier", "onnx");
    var l0, l1 := LineOf((KEY, path)), LineOf(("classifier", "onnx"));
    TwoLines(l0, l1);
    LoadTwo(l0, l1);
    hide ParseLine, Lines, LineOf, LoadLines, Trim, StripComment, Trimmed;
  }
}
