/** Reading and updating a KEY=value settings file (scripts/configure_server.py). */
module SettingsFile {
  import opened Wrappers
  import opened Text

  // ---- lines

  predicate IsAssignment(line: string) {
    var s := Strip(line);
    s != "" && s[0] != '#' && '=' in s
  }

  function KeyOf(line: string): string {
    Strip(Before(Strip(line), '='))
  }

  function ValueOf(line: string): string {
    Strip(After(Strip(line), '='))
  }

  /** How the writer compares a line with a key: without stripping what stands before the equals sign. */
  predicate Spells(line: string, key: string) {
    Before(Strip(line), '=') == key
  }

  function Assign(values: map<string, string>, line: string): map<string, string> {
    if IsAssignment(line) then values[KeyOf(line) := ValueOf(line)] else values
  }

  /** Later assignments override earlier ones. */
  function ReadFrom(values: map<string, string>, lines: seq<string>): map<string, string>
    decreases |lines|
  {
    if lines == [] then values else ReadFrom(Assign(values, lines[0]), lines[1..])
  }

  function Read(text: string): map<string, string> {
    ReadFrom(map[], Lines(text))
  }

  /** The first line that spells the key is replaced, later ones are dropped, and without one the line is appended. */
  function UpdateLines(lines: seq<string>, key: string, replacement: string, replaced: bool): seq<string> {
    if lines == [] then (if replaced then [] else [replacement])
    else if Spells(lines[0], key) then
      (if replaced then [] else [replacement]) + UpdateLines(lines[1..], key, replacement, true)
    else [lines[0]] + UpdateLines(lines[1..], key, replacement, replaced)
  }

  function Write(text: string, key: string, value: string): string {
    Join(UpdateLines(Lines(text), key, key + "=" + value, false), "\n") + "\n"
  }

  // ---- the file, rewritten as a whole

  class File {
    /** None while the file does not exist. */
    var contents: Option<string>

    constructor (contents: Option<string>)
      ensures this.contents == contents
    {
      this.contents := contents;
    }

    function Text(): string
      reads this
    {
      if contents.Some? then contents.value else ""
    }

    method ReadEnvironment() returns (values: map<string, string>)
      ensures values == Read(Text())
    {
      values := map[];
      if contents.None? {
        assert Lines("") == [];
        return;
      }
      var lines := Lines(contents.value);
      var i := 0;
      while i < |lines|
        invariant 0 <= i <= |lines|
        invariant ReadFrom(values, lines[i..]) == Read(Text())
      {
        var line := Strip(lines[i]);
        if line != "" && line[0] != '#' && '=' in line {
          values := values[Strip(Before(line, '=')) := Strip(After(line, '='))];
        }
        assert lines[i..][1..] == lines[i + 1..];
        i := i + 1;
      }
    }

    method WriteSetting(key: string, value: string)
      modifies this
      ensures contents == Some(Write(old(Text()), key, value))
    {
      hide Strip;
      var lines := if contents.Some? then Lines(contents.value) else [];
      assert Lines("") == [];
      var replacement := key + "=" + value;
      var updated: seq<string>, replaced := [], false;
      var i := 0;
      while i < |lines|
        invariant 0 <= i <= |lines|
        invariant updated + UpdateLines(lines[i..], key, replacement, replaced) == UpdateLines(lines, key, replacement, false)
        invariant contents == old(contents)
      {
        UpdateOneLine(updated, lines, i, key, replacement, replaced);
        if Before(Strip(lines[i]), '=') == key {
          if !replaced {
            updated := updated + [replacement];
            replaced := true;
          }
        } else {
          updated := updated + [lines[i]];
        }
        i := i + 1;
      }
      assert lines[i..] == [];
      if !replaced {
        updated := updated + [replacement];
      } else {
        assert updated + [] == updated;
      }
      contents := Some(Join(updated, "\n") + "\n");
    }
  }

  lemma UpdateOneLine(updated: seq<string>, lines: seq<string>, i: nat, key: string, replacement: string, replaced: bool)
    requires i < |lines|
    ensures updated + UpdateLines(lines[i..], key, replacement, replaced)
         == if !Spells(lines[i], key) then updated + [lines[i]] + UpdateLines(lines[i + 1..], key, replacement, replaced)
            else if replaced then updated + UpdateLines(lines[i + 1..], key, replacement, true)
            else updated + [replacement] + UpdateLines(lines[i + 1..], key, replacement, true)
  {
    var head := if Spells(lines[i], key) then (if replaced then [] else [replacement]) else [lines[i]];
    var rest := UpdateLines(lines[i + 1..], key, replacement, replaced || Spells(lines[i], key));
    assert lines[i..][1..] == lines[i + 1..];
    assert updated + (head + rest) == (updated + head) + rest;
    assert updated + [] == updated;
  }

  // ---- the line that is written

  /** Keys as the programs use them: not blank, no surrounding space, no comment sign, equals sign or line break. */
  ghost predicate ValidKey(key: string) {
    key != "" && Stripped(key) && key[0] != '#' && '=' !in key && '\n' !in key
  }

  /** The written line reads back as the key and the stripped value, and spells the key. */
  lemma WrittenLine(key: string, value: string)
    requires ValidKey(key)
    ensures var line := key + "=" + value;
            IsAssignment(line) && KeyOf(line) == key && ValueOf(line) == Strip(value) && Spells(line, key)
  {
    var head, line := key + "=", key + "=" + value;
    assert StripLeft(line) == line;
    StripRightAfter(head, value);
    assert Strip(line) == key + ['='] + StripRight(value);
    BeforeAfterOf(key, '=', StripRight(value));
    StripStripped(key);
    StripAfterStripRight(value);
  }

  /** A line that spells the key and assigns anything assigns that key. */
  lemma SpellingAssigns(line: string, key: string)
    requires ValidKey(key) && Spells(line, key)
    ensures IsAssignment(line) ==> KeyOf(line) == key
  {
    StripStripped(key);
  }

  // ---- reading after writing

  /** A line that assigns the key without spelling it: blanks stand before the equals sign. */
  predicate Loose(line: string, key: string) {
    IsAssignment(line) && KeyOf(line) == key && !Spells(line, key)
  }

  function GetOr(o: Option<string>, otherwise: string): string {
    if o.Some? then o.value else otherwise
  }

  function LastLoose(lines: seq<string>, key: string): Option<string> {
    if lines == [] then None
    else if LastLoose(lines[1..], key).Some? then LastLoose(lines[1..], key)
    else if Loose(lines[0], key) then Some(ValueOf(lines[0]))
    else None
  }

  /** The value of the last loose line below the line that a write replaces. */
  function Shadow(lines: seq<string>, key: string): Option<string> {
    if lines == [] then None
    else if Spells(lines[0], key) then LastLoose(lines[1..], key)
    else Shadow(lines[1..], key)
  }

  lemma DropSpelled(lines: seq<string>, key: string, replacement: string)
    requires lines != [] && Spells(lines[0], key)
    ensures UpdateLines(lines, key, replacement, true) == UpdateLines(lines[1..], key, replacement, true)
    ensures LastLoose(lines, key) == LastLoose(lines[1..], key)
  {
    assert [] + UpdateLines(lines[1..], key, replacement, true) == UpdateLines(lines[1..], key, replacement, true);
  }

  lemma {:induction false} ReadAfterReplaced(values: map<string, string>, lines: seq<string>, key: string, replacement: string, w: string)
    requires ValidKey(key)
    ensures ReadFrom(values[key := w], UpdateLines(lines, key, replacement, true))
         == ReadFrom(values, lines)[key := GetOr(LastLoose(lines, key), w)]
    decreases |lines|
  {
    hide IsAssignment, KeyOf, ValueOf, Spells;
    if lines == [] {
    } else {
      var line, rest := lines[0], lines[1..];
      if Spells(line, key) {
        SpellingAssigns(line, key);
        ReadAfterReplaced(Assign(values, line), rest, key, replacement, w);
        assert Assign(values, line)[key := w] == values[key := w];
        DropSpelled(lines, key, replacement);
        hide Assign, Loose;
        assert LastLoose(lines, key) == LastLoose(rest, key);
      } else {
        var w' := if Loose(line, key) then ValueOf(line) else w;
        ReadAfterReplaced(Assign(values, line), rest, key, replacement, w');
        assert Assign(values[key := w], line) == Assign(values, line)[key := w'];
        assert ([line] + UpdateLines(rest, key, replacement, true))[1..] == UpdateLines(rest, key, replacement, true);
      }
    }
  }

  lemma {:induction false} ReadAfterUpdate(values: map<string, string>, lines: seq<string>, key: string, value: string)
    requires ValidKey(key)
    ensures ReadFrom(values, UpdateLines(lines, key, key + "=" + value, false))
         == ReadFrom(values, lines)[key := GetOr(Shadow(lines, key), Strip(value))]
    decreases |lines|
  {
    var r := key + "=" + value;
    WrittenLine(key, value);
    hide IsAssignment, KeyOf, ValueOf, Spells;
    if lines == [] {
      assert [r][1..] == [];
      assert ReadFrom(values, [r]) == Assign(values, r);
    } else {
      var line, rest := lines[0], lines[1..];
      if Spells(line, key) {
        var tail := UpdateLines(rest, key, r, true);
        SpellingAssigns(line, key);
        ReadAfterReplaced(Assign(values, line), rest, key, r, Strip(value));
        assert Assign(values, line)[key := Strip(value)] == Assign(values, r);
        assert ([r] + tail)[1..] == tail;
      } else {
        ReadAfterUpdate(Assign(values, line), rest, key, value);
        assert ([line] + UpdateLines(rest, key, r, false))[1..] == UpdateLines(rest, key, r, false);
      }
    }
  }

  lemma {:induction false} UpdatedLinesAreLines(lines: seq<string>, key: string, replacement: string, replaced: bool)
    requires '\n' !in replacement && forall i :: 0 <= i < |lines| ==> '\n' !in lines[i]
    ensures forall i :: 0 <= i < |UpdateLines(lines, key, replacement, replaced)| ==>
              '\n' !in UpdateLines(lines, key, replacement, replaced)[i]
    ensures !replaced ==> UpdateLines(lines, key, replacement, replaced) != []
  {
    if lines == [] {
    } else {
      UpdatedLinesAreLines(lines[1..], key, replacement, replaced || Spells(lines[0], key));
    }
  }

  /** The written text has exactly the updated lines. */
  lemma LinesOfWrite(text: string, key: string, value: string)
    requires '\n' !in key && '\n' !in value
    ensures Lines(Write(text, key, value)) == UpdateLines(Lines(text), key, key + "=" + value, false)
  {
    var updated := UpdateLines(Lines(text), key, key + "=" + value, false);
    LinesHaveNoNewline(text);
    UpdatedLinesAreLines(Lines(text), key, key + "=" + value, false);
    JoinIsTerminated(updated);
    LinesTerminated(updated);
  }

  /** Reading after writing: every other key keeps its value, and the key reads as the new value unless shadowed. */
  lemma ReadAfterWrite(text: string, key: string, value: string)
    requires ValidKey(key) && '\n' !in value
    ensures Read(Write(text, key, value)) == Read(text)[key := GetOr(Shadow(Lines(text), key), Strip(value))]
  {
    LinesOfWrite(text, key, value);
    ReadAfterUpdate(map[], Lines(text), key, value);
  }

  lemma {:induction false} NoLooseNoShadow(lines: seq<string>, key: string)
    requires forall i :: 0 <= i < |lines| ==> !Loose(lines[i], key)
    ensures LastLoose(lines, key).None? && Shadow(lines, key).None?
  {
    if lines == [] {
    } else {
      NoLooseNoShadow(lines[1..], key);
    }
  }

  /** When no line puts blanks between the key and its equals sign, the key reads as the stripped new value. */
  lemma ReadAfterCleanWrite(text: string, key: string, value: string)
    requires ValidKey(key) && '\n' !in value
    requires forall i :: 0 <= i < |Lines(text)| ==> !Loose(Lines(text)[i], key)
    ensures Read(Write(text, key, value)) == Read(text)[key := Strip(value)]
  {
    ReadAfterWrite(text, key, value);
    NoLooseNoShadow(Lines(text), key);
  }

  ghost predicate TakesEffect(text: string, key: string, value: string) {
    '\n' !in value ==> key in Read(Write(text, key, value)) && Read(Write(text, key, value))[key] == Strip(value)
  }

  /** A write takes effect for every value exactly when no loose line stands below the first line that spells the key. */
  lemma WriteTakesEffectIff(text: string, key: string)
    requires ValidKey(key)
    ensures (forall value :: TakesEffect(text, key, value)) <==> Shadow(Lines(text), key).None?
  {
    var shadow := Shadow(Lines(text), key);
    forall value | shadow.None? ensures TakesEffect(text, key, value) {
      if '\n' !in value {
        ReadAfterWrite(text, key, value);
      }
    }
    if shadow.Some? {
      var value := if shadow.value == "" then "x" else "";
      StripStripped(value);
      ReadAfterWrite(text, key, value);
      assert !TakesEffect(text, key, value);
    }
  }

  /** A line that spells the key with a blank before the equals sign. */
  function LooseLine(key: string, value: string): string {
    key + " = " + value
  }

  lemma LooseLineReads(key: string, value: string)
    requires ValidKey(key) && value != "" && Stripped(value)
    ensures Loose(LooseLine(key, value), key) && ValueOf(LooseLine(key, value)) == value
  {
    var line := LooseLine(key, value);
    assert line == (key + " ") + ['='] + (" " + value);
    assert line[0] == key[0] && line[|line| - 1] == value[|value| - 1];
    StripStripped(line);
    BeforeAfterOf(key + " ", '=', " " + value);
    StripBlankAfter(key);
    StripBlankBefore(value);
    assert line[|key| + 1] == '=';
  }

  lemma StripBlankAfter(key: string)
    requires key != "" && Stripped(key)
    ensures Strip(key + " ") == key
  {
    var s := key + " ";
    assert StripLeft(s) == s && s[..|s| - 1] == key && IsSpace(' ');
    assert StripRight(s) == StripRight(key);
  }

  lemma StripBlankBefore(value: string)
    requires value != "" && Stripped(value)
    ensures Strip(" " + value) == value
  {
    assert (" " + value)[1..] == value && IsSpace(' ');
    assert StripLeft(value) == value;
  }

  /** A file with a written line of a key, and a later line that spells the key with a blank. */
  function ShadowedText(key: string, first: string, second: string): string {
    key + "=" + first + "\n" + LooseLine(key, second) + "\n"
  }

  /** No write of the key takes effect in such a file: the later line is what is read. */
  lemma ShadowedWrite(key: string, first: string, second: string, value: string)
    requires ValidKey(key) && '\n' !in first && '\n' !in value
    requires second != "" && Stripped(second) && '\n' !in second
    ensures Read(Write(ShadowedText(key, first, second), key, value))
         == Read(ShadowedText(key, first, second))[key := second]
  {
    var a, b := key + "=" + first, LooseLine(key, second);
    var text := ShadowedText(key, first, second);
    TwoLines(a, b);
    assert text == a + "\n" + b + "\n";
    WrittenLine(key, first);
    LooseLineReads(key, second);
    assert [a, b][1..] == [b] && [b][1..] == [];
    hide Spells, Loose, ValueOf, Strip;
    assert LastLoose([b], key) == Some(second);
    ReadAfterWrite(text, key, value);
  }

  lemma TwoLines(a: string, b: string)
    requires '\n' !in a && '\n' !in b
    ensures Lines(a + "\n" + b + "\n") == [a, b]
  {
    assert [a, b][1..] == [b] && [b][1..] == [];
    assert Terminated([b]) == b + "\n" + "" && b + "\n" + "" == b + "\n";
    assert Terminated([a, b]) == a + "\n" + (b + "\n") && a + "\n" + (b + "\n") == a + "\n" + b + "\n";
    LinesTerminated([a, b]);
  }

  const PORT_KEY := "G_ONE_HTTP_PORT"

  /** For one of the settings that operators may change. */
  lemma ShadowExample(port: string)
    requires '\n' !in port
    ensures var after := Read(Write(PORT_KEY + "=8000\n" + PORT_KEY + " = 9000\n", PORT_KEY, port));
            PORT_KEY in after && after[PORT_KEY] == "9000"
  {
    PortKeyIsValid(PORT_KEY);
    ShadowedWrite(PORT_KEY, "8000", "9000", port);
    ShadowedPortText(PORT_KEY);
  }

  lemma PortKeyIsValid(key: string)
    requires key == PORT_KEY
    ensures ValidKey(key)
  {
  }

  lemma ShadowedPortText(key: string)
    ensures key + "=8000\n" + key + " = 9000\n" == ShadowedText(key, "8000", "9000")
  {
    assert "=8000\n" == "=" + "8000" + "\n" && " = 9000\n" == " = " + "9000" + "\n";
  }

  // ---- repeated writes

  lemma {:induction false} UpdateTwice(lines: seq<string>, key: string, r1: string, r2: string, replaced: bool)
    requires Spells(r1, key)
    ensures UpdateLines(UpdateLines(lines, key, r1, replaced), key, r2, replaced) == UpdateLines(lines, key, r2, replaced)
  {
    if lines == [] {
      assert [r1][1..] == [];
    } else {
      var rest := lines[1..];
      if Spells(lines[0], key) {
        UpdateTwice(rest, key, r1, r2, true);
        var tail := UpdateLines(rest, key, r1, true);
        assert [] + tail == tail;
        assert ([r1] + tail)[1..] == tail;
      } else {
        UpdateTwice(rest, key, r1, r2, replaced);
        var tail := UpdateLines(rest, key, r1, replaced);
        assert ([lines[0]] + tail)[1..] == tail;
      }
    }
  }

  /** Two writes to one key leave the text of the last alone. */
  lemma LastWriteWins(text: string, key: string, first: string, second: string)
    requires ValidKey(key) && '\n' !in first && '\n' !in second
    ensures Write(Write(text, key, first), key, second) == Write(text, key, second)
  {
    LinesOfWrite(text, key, first);
    WrittenLine(key, first);
    UpdateTwice(Lines(text), key, key + "=" + first, key + "=" + second, false);
  }

  function Spellings(lines: seq<string>, key: string): nat {
    if lines == [] then 0 else (if Spells(lines[0], key) then 1 else 0) + Spellings(lines[1..], key)
  }

  lemma {:induction false} UpdateLeavesOne(lines: seq<string>, key: string, replacement: string, replaced: bool)
    requires Spells(replacement, key)
    ensures Spellings(UpdateLines(lines, key, replacement, replaced), key) == if replaced then 0 else 1
  {
    if lines == [] {
      assert [replacement][1..] == [];
    } else {
      UpdateLeavesOne(lines[1..], key, replacement, replaced || Spells(lines[0], key));
      var tail := UpdateLines(lines[1..], key, replacement, replaced || Spells(lines[0], key));
      assert ([replacement] + tail)[1..] == tail && ([lines[0]] + tail)[1..] == tail && [] + tail == tail;
    }
  }

  /** Duplicate lines for the key collapse into one. */
  lemma WriteLeavesOneLine(text: string, key: string, value: string)
    requires ValidKey(key) && '\n' !in value
    ensures Spellings(Lines(Write(text, key, value)), key) == 1
  {
    LinesOfWrite(text, key, value);
    WrittenLine(key, value);
    UpdateLeavesOne(Lines(text), key, key + "=" + value, false);
  }
}
