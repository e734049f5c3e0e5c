/** Completing a settings file without replacing operator values (scripts/ensure_compose_env.py). */
module EnsureEnvironment {
  import opened Wrappers
  import opened Text
  import opened SettingsFile

  datatype Setting = Setting(key: string, value: string)

  /** Freshly drawn secrets; the other settings have fixed defaults. */
  datatype Secrets = Secrets(jwt: string, db: string, dbRoot: string, console: string, wireguard: string)

  function RequiredSettings(s: Secrets): seq<Setting> {
    [Setting("G_ONE_JWT_SECRET", s.jwt),
     Setting("G_ONE_DB_PASSWORD", s.db),
     Setting("G_ONE_DB_ROOT_PASSWORD", s.dbRoot),
     Setting("G_ONE_CONSOLE_PASSWORD", s.console),
     Setting("G_ONE_WIREGUARD_PRIVATE_KEY", s.wireguard),
     Setting("G_ONE_JWT_ISSUER", "g-one"),
     Setting("G_ONE_JWT_AUDIENCE", "g-one-api"),
     Setting("G_ONE_HTTP_PORT", "8000"),
     Setting("G_ONE_HTTP_BIND", "0.0.0.0"),
     Setting("G_ONE_DB_NAME", "g_one"),
     Setting("G_ONE_DB_USER", "g_one")]
  }

  /** The keys that some line assigns a non-blank value. */
  function AssignedIn(lines: seq<string>): set<string> {
    if lines == [] then {}
    else AssignedIn(lines[..|lines| - 1]) + AssignedBy(lines[|lines| - 1])
  }

  function AssignedBy(line: string): set<string> {
    if IsAssignment(line) && KeyOf(line) != "" && ValueOf(line) != "" then {KeyOf(line)} else {}
  }

  function AssignedKeys(contents: string): set<string> {
    AssignedIn(Lines(contents))
  }

  function Line(s: Setting): string {
    s.key + "=" + s.value
  }

  function Additions(settings: seq<Setting>, keys: set<string>): seq<string> {
    if settings == [] then []
    else (if settings[0].key in keys then [] else [Line(settings[0])]) + Additions(settings[1..], keys)
  }

  function Completed(existing: string, settings: seq<Setting>): string {
    var additions := Additions(settings, AssignedKeys(existing));
    if additions == [] then existing
    else
      var separator := if existing == "" || existing[|existing| - 1] == '\n' then "" else "\n";
      existing + separator + Join(additions, "\n") + "\n"
  }

  // ---- the program

  method FindAssignedKeys(contents: string) returns (keys: set<string>)
    ensures keys == AssignedKeys(contents)
  {
    keys := {};
    var lines := Lines(contents);
    var i := 0;
    while i < |lines|
      invariant 0 <= i <= |lines|
      invariant keys == AssignedIn(lines[..i])
    {
      var line := Strip(lines[i]);
      assert lines[..i + 1][..i] == lines[..i];
      i := i + 1;
      if line == "" || line[0] == '#' || '=' !in line {
        continue;
      }
      if Strip(Before(line, '=')) != "" && Strip(After(line, '=')) != "" {
        keys := keys + {Strip(Before(line, '='))};
      }
    }
    assert lines[..i] == lines;
  }

  /** Rewrites the file only when something is missing; returns the added lines. */
  method Ensure(file: File, settings: seq<Setting>) returns (additions: seq<string>)
    modifies file
    ensures additions == Additions(settings, AssignedKeys(old(file.Text())))
    ensures file.Text() == Completed(old(file.Text()), settings)
    ensures additions == [] ==> file.contents == old(file.contents)
  {
    var existing := file.Text();
    var keys := FindAssignedKeys(existing);
    additions := Additions(settings, keys);
    if additions == [] {
      return;
    }
    var separator := if existing == "" || existing[|existing| - 1] == '\n' then "" else "\n";
    file.contents := Some(existing + separator + Join(additions, "\n") + "\n");
  }

  // ---- the completed text, line by line

  /** Generated values: printable words without surrounding space or line breaks. */
  ghost predicate ValidSettings(settings: seq<Setting>) {
    && (forall i :: 0 <= i < |settings| ==>
          ValidKey(settings[i].key) && settings[i].value != "" && Stripped(settings[i].value) && '\n' !in settings[i].value)
    && (forall i, j :: 0 <= i < j < |settings| ==> settings[i].key != settings[j].key)
  }

  lemma {:induction false} AdditionsAreLines(settings: seq<Setting>, keys: set<string>)
    requires ValidSettings(settings)
    ensures forall i :: 0 <= i < |Additions(settings, keys)| ==> '\n' !in Additions(settings, keys)[i]
  {
    if settings == [] {
    } else {
      AdditionsAreLines(settings[1..], keys);
    }
  }

  lemma LinesOfCompleted(existing: string, settings: seq<Setting>)
    requires ValidSettings(settings)
    ensures Lines(Completed(existing, settings)) == Lines(existing) + Additions(settings, AssignedKeys(existing))
  {
    var additions := Additions(settings, AssignedKeys(existing));
    if additions == [] {
      assert Lines(existing) + [] == Lines(existing);
    } else {
      var separator := if existing == "" || existing[|existing| - 1] == '\n' then "" else "\n";
      TextIsLines(existing);
      JoinIsTerminated(additions);
      TerminatedConcat(Lines(existing), additions);
      assert Completed(existing, settings) == (existing + separator) + (Join(additions, "\n") + "\n");
      AdditionsAreLines(settings, AssignedKeys(existing));
      LinesHaveNoNewline(existing);
      LinesTerminated(Lines(existing) + additions);
    }
  }

  lemma {:induction false} ReadConcat(values: map<string, string>, a: seq<string>, b: seq<string>)
    ensures ReadFrom(values, a + b) == ReadFrom(ReadFrom(values, a), b)
    decreases |a|
  {
    if a == [] {
      assert a + b == b;
    } else {
      ReadConcat(Assign(values, a[0]), a[1..], b);
      assert (a + b)[1..] == a[1..] + b;
    }
  }

  ghost predicate IsKey(settings: seq<Setting>, key: string) {
    exists i :: 0 <= i < |settings| && settings[i].key == key
  }

  lemma ReadSettingLine(values: map<string, string>, s: Setting)
    requires ValidKey(s.key) && Stripped(s.value)
    ensures Assign(values, Line(s)) == values[s.key := s.value]
  {
    WrittenLine(s.key, s.value);
    StripStripped(s.value);
  }

  lemma {:induction false} ReadAdditions(values: map<string, string>, settings: seq<Setting>, keys: set<string>, key: string)
    requires ValidSettings(settings)
    ensures var r := ReadFrom(values, Additions(settings, keys));
            && (key in keys || !IsKey(settings, key) ==> (key in r <==> key in values) && (key in r ==> r[key] == values[key]))
            && (forall i :: 0 <= i < |settings| && settings[i].key == key && key !in keys ==>
                  key in r && r[key] == settings[i].value)
    decreases |settings|
  {
    if settings == [] {
    } else {
      var s, rest := settings[0], settings[1..];
      var tail := Additions(rest, keys);
      ReadSettingLine(values, s);
      assert IsKey(rest, key) ==> IsKey(settings, key);
      if s.key in keys {
        assert [] + tail == tail;
        ReadAdditions(values, rest, keys, key);
      } else {
        assert ([Line(s)] + tail)[1..] == tail;
        ReadAdditions(values[s.key := s.value], rest, keys, key);
        assert key == s.key ==> !IsKey(rest, key);
        assert IsKey(settings, s.key);
      }
    }
  }

  // ---- what completion promises

  /** The operator's text stays in front, untouched. */
  lemma CompletedKeepsPrefix(existing: string, settings: seq<Setting>)
    ensures existing <= Completed(existing, settings)
  {
  }

  /** Keys that already have a non-blank assignment, and keys nobody asked for, read as before. */
  lemma CompletedKeepsValues(existing: string, settings: seq<Setting>, key: string)
    requires ValidSettings(settings)
    requires key in AssignedKeys(existing) || !IsKey(settings, key)
    ensures var before, after := Read(existing), Read(Completed(existing, settings));
            (key in after <==> key in before) && (key in after ==> after[key] == before[key])
  {
    LinesOfCompleted(existing, settings);
    ReadConcat(map[], Lines(existing), Additions(settings, AssignedKeys(existing)));
    ReadAdditions(Read(existing), settings, AssignedKeys(existing), key);
  }

  /** Every other required key reads as its generated value. */
  lemma CompletedSuppliesValues(existing: string, settings: seq<Setting>, i: nat)
    requires ValidSettings(settings) && i < |settings| && settings[i].key !in AssignedKeys(existing)
    ensures var after := Read(Completed(existing, settings));
            settings[i].key in after && after[settings[i].key] == settings[i].value
  {
    LinesOfCompleted(existing, settings);
    ReadConcat(map[], Lines(existing), Additions(settings, AssignedKeys(existing)));
    ReadAdditions(Read(existing), settings, AssignedKeys(existing), settings[i].key);
  }

  // ---- when completion leaves a required key blank

  predicate AssignsValue(line: string, key: string) {
    IsAssignment(line) && KeyOf(line) == key && ValueOf(line) != ""
  }

  predicate AssignsBlank(line: string, key: string) {
    IsAssignment(line) && KeyOf(line) == key && ValueOf(line) == ""
  }

  predicate AssignsTo(line: string, key: string) {
    IsAssignment(line) && KeyOf(line) == key
  }

  /** The last assignment of the key is blank, and an earlier one is not. */
  ghost predicate Cleared(lines: seq<string>, key: string) {
    exists i, j :: 0 <= i < j < |lines| && ClearedAt(lines, key, i, j)
  }

  ghost predicate ClearedAt(lines: seq<string>, key: string, i: nat, j: nat)
    requires i < j < |lines|
  {
    AssignsValue(lines[i], key) && AssignsBlank(lines[j], key) && forall k :: j < k < |lines| ==> !AssignsTo(lines[k], key)
  }

  ghost predicate SomeValue(lines: seq<string>, key: string) {
    exists i :: 0 <= i < |lines| && AssignsValue(lines[i], key)
  }

  lemma OneMoreValue(init: seq<string>, line: string, key: string)
    ensures SomeValue(init + [line], key) <==> SomeValue(init, key) || AssignsValue(line, key)
  {
    hide AssignsValue;
    var lines := init + [line];
    assert lines[|init|] == line;
    if i :| 0 <= i < |init| && AssignsValue(init[i], key) {
      assert lines[i] == init[i];
    }
  }

  lemma {:induction false} AssignedIsAssignment(lines: seq<string>, key: string)
    ensures key in AssignedIn(lines) <==> key != "" && SomeValue(lines, key)
  {
    if lines == [] {
    } else {
      var init, line := lines[..|lines| - 1], lines[|lines| - 1];
      assert lines == init + [line];
      hide AssignsValue, AssignedBy, SomeValue;
      AssignedIsAssignment(init, key);
      AssignedByLine(line, key);
      OneMoreValue(init, line, key);
    }
  }

  lemma AssignedByLine(line: string, key: string)
    ensures key in AssignedBy(line) <==> key != "" && AssignsValue(line, key)
  {
  }

  /** A line that does not assign the key leaves it as cleared or not cleared as it was. */
  lemma OtherLine(init: seq<string>, line: string, key: string)
    requires !AssignsTo(line, key)
    ensures Cleared(init + [line], key) <==> Cleared(init, key)
  {
    var lines, n := init + [line], |init|;
    hide IsAssignment, KeyOf, ValueOf;
    assert lines[n] == line;
    if i, j :| 0 <= i < j < n && ClearedAt(init, key, i, j) {
      assert ClearedAt(lines, key, i, j);
    }
    if i, j :| 0 <= i < j < |lines| && ClearedAt(lines, key, i, j) {
      assert j != n;
      forall k | j < k < n ensures !AssignsTo(init[k], key) {
        assert init[k] == lines[k];
      }
      assert ClearedAt(init, key, i, j);
    }
  }

  lemma ValueStays(lines: seq<string>, key: string)
    requires lines != [] && AssignsValue(lines[|lines| - 1], key)
    ensures !Cleared(lines, key)
  {
    hide IsAssignment, KeyOf, ValueOf;
    forall i, j | 0 <= i < j < |lines| ensures !ClearedAt(lines, key, i, j) {
      assert AssignsTo(lines[|lines| - 1], key);
    }
  }

  /** Of a key with a non-blank assignment, the blank value is read if and only if the key is cleared. */
  lemma {:induction false} ReadsBlankIff(lines: seq<string>, key: string)
    requires key in AssignedIn(lines)
    ensures var r := ReadFrom(map[], lines); key in r && (r[key] == "" <==> Cleared(lines, key))
  {
    assert lines != [];
    var n := |lines| - 1;
    var init, line := lines[..n], lines[n];
    assert lines == init + [line];
    ReadConcat(map[], init, [line]);
    assert [line][1..] == [];
    AssignedIsAssignment(init, key);
    if !AssignsTo(line, key) {
      OtherLine(init, line, key);
      ReadsBlankIff(init, key);
    } else if ValueOf(line) == "" {
      var i :| 0 <= i < n && AssignsValue(init[i], key);
      assert ClearedAt(lines, key, i, n);
    } else {
      ValueStays(lines, key);
    }
  }

  ghost predicate ReadsValue(text: string, key: string) {
    key in Read(text) && Read(text)[key] != ""
  }

  /** One required key after completion: it reads as a value unless the operator cleared it. */
  lemma CompletedReadsIff(existing: string, settings: seq<Setting>, i: nat)
    requires ValidSettings(settings) && i < |settings|
    ensures ReadsValue(Completed(existing, settings), settings[i].key) <==> !Cleared(Lines(existing), settings[i].key)
  {
    var key := settings[i].key;
    AssignedIsAssignment(Lines(existing), key);
    if key in AssignedKeys(existing) {
      CompletedKeepsValues(existing, settings, key);
      ReadsBlankIff(Lines(existing), key);
    } else {
      CompletedSuppliesValues(existing, settings, i);
    }
  }

  /**
   * After completion every required key reads as a value if and only if, before it, no required key had a blank last
   * assignment behind a non-blank one.
   */
  lemma CompleteIff(existing: string, settings: seq<Setting>)
    requires ValidSettings(settings)
    ensures (forall i :: 0 <= i < |settings| ==> ReadsValue(Completed(existing, settings), settings[i].key))
            <==> forall i :: 0 <= i < |settings| ==> !Cleared(Lines(existing), settings[i].key)
  {
    hide ReadsValue, Cleared, Completed, Lines, ValidSettings;
    forall i | 0 <= i < |settings|
      ensures ReadsValue(Completed(existing, settings), settings[i].key) <==> !Cleared(Lines(existing), settings[i].key)
    {
      CompletedReadsIff(existing, settings, i);
    }
  }

  /** A required key with a value and, below it, without one counts as assigned and stays blank. */
  lemma ClearedKeyStaysBlank(settings: seq<Setting>, i: nat, value: string)
    requires ValidSettings(settings) && i < |settings|
    requires value != "" && Stripped(value) && '\n' !in value
    ensures var key := settings[i].key;
            var existing := key + "=" + value + "\n" + key + "=\n";
            !ReadsValue(Completed(existing, settings), key)
  {
    var key := settings[i].key;
    var a, b := key + "=" + value, key + "=" + "";
    var existing := key + "=" + value + "\n" + key + "=\n";
    WrittenLine(key, value);
    WrittenLine(key, "");
    StripStripped(value);
    TwoLines(a, b);
    assert existing == a + "\n" + b + "\n";
    assert ClearedAt([a, b], key, 0, 1);
    CompletedReadsIff(existing, settings, i);
  }

  lemma {:induction false} AssignedConcat(a: seq<string>, b: seq<string>)
    ensures AssignedIn(a + b) == AssignedIn(a) + AssignedIn(b)
  {
    hide AssignedBy;
    if b == [] {
      assert a + b == a;
    } else {
      var init, last := b[..|b| - 1], b[|b| - 1];
      AssignedConcat(a, init);
      assert (a + b)[..|a + b| - 1] == a + init;
    }
  }

  lemma {:induction false} AdditionsAssign(settings: seq<Setting>, keys: set<string>, i: nat)
    requires ValidSettings(settings) && i < |settings| && settings[i].key !in keys
    ensures settings[i].key in AssignedIn(Additions(settings, keys))
  {
    var s, tail := settings[0], Additions(settings[1..], keys);
    var head := if s.key in keys then [] else [Line(s)];
    AssignedConcat(head, tail);
    if i == 0 {
      WrittenLine(s.key, s.value);
      StripStripped(s.value);
      assert [Line(s)][..0] == [];
    } else {
      AdditionsAssign(settings[1..], keys, i - 1);
    }
  }

  lemma {:induction false} NothingMissing(settings: seq<Setting>, keys: set<string>)
    requires forall i :: 0 <= i < |settings| ==> settings[i].key in keys
    ensures Additions(settings, keys) == []
  {
    if settings == [] {
    } else {
      NothingMissing(settings[1..], keys);
    }
  }

  /** Completing twice adds nothing, whatever values the second run generates. */
  lemma CompletedTwice(existing: string, settings: seq<Setting>, again: seq<Setting>)
    requires ValidSettings(settings)
    requires |again| == |settings| && forall i :: 0 <= i < |settings| ==> again[i].key == settings[i].key
    ensures Additions(again, AssignedKeys(Completed(existing, settings))) == []
    ensures Completed(Completed(existing, settings), again) == Completed(existing, settings)
  {
    var keys := AssignedKeys(existing);
    LinesOfCompleted(existing, settings);
    AssignedConcat(Lines(existing), Additions(settings, keys));
    forall i | 0 <= i < |again| ensures again[i].key in AssignedKeys(Completed(existing, settings)) {
      if settings[i].key !in keys {
        AdditionsAssign(settings, keys, i);
      }
    }
    NothingMissing(again, AssignedKeys(Completed(existing, settings)));
  }

  ghost predicate Word(s: string) {
    s != "" && forall i :: 0 <= i < |s| ==> !IsSpace(s[i])
  }

  lemma WordIsValue(s: string)
    requires Word(s)
    ensures s != "" && Stripped(s) && '\n' !in s
  {
    assert IsSpace('\n');
  }

  lemma RequiredValues(s: Secrets, i: nat)
    requires Word(s.jwt) && Word(s.db) && Word(s.dbRoot) && Word(s.console) && Word(s.wireguard)
    requires i < |RequiredSettings(s)|
    ensures var v := RequiredSettings(s)[i].value; v != "" && Stripped(v) && '\n' !in v
  {
    if i < 5 {
      WordIsValue(RequiredSettings(s)[i].value);
    }
  }

  ghost predicate KeyWord(key: string) {
    key != "" && forall i :: 0 <= i < |key| ==> 'A' <= key[i] <= 'Z' || key[i] == '_'
  }

  lemma KeyWordIsKey(key: string)
    requires KeyWord(key)
    ensures ValidKey(key)
  {
  }

  lemma SecretKeys(s: Secrets, i: nat)
    requires i < 5
    ensures KeyWord(RequiredSettings(s)[i].key)
  {
    SecretWords();
    hide KeyWord;
  }

  lemma SecretWords()
    ensures KeyWord("G_ONE_JWT_SECRET") && KeyWord("G_ONE_DB_PASSWORD") && KeyWord("G_ONE_DB_ROOT_PASSWORD")
    ensures KeyWord("G_ONE_CONSOLE_PASSWORD") && KeyWord("G_ONE_WIREGUARD_PRIVATE_KEY")
  {
  }

  lemma DefaultKeys(s: Secrets, i: nat)
    requires 5 <= i < |RequiredSettings(s)|
    ensures KeyWord(RequiredSettings(s)[i].key)
  {
  }

  lemma RequiredKeys(s: Secrets, i: nat)
    requires i < |RequiredSettings(s)|
    ensures ValidKey(RequiredSettings(s)[i].key)
  {
    if i < 5 {
      SecretKeys(s, i);
    } else {
      DefaultKeys(s, i);
    }
    KeyWordIsKey(RequiredSettings(s)[i].key);
  }

  lemma RequiredKeysDiffer(s: Secrets, i: nat, j: nat)
    requires i < j < |RequiredSettings(s)|
    ensures RequiredSettings(s)[i].key != RequiredSettings(s)[j].key
  {
    var a, b := RequiredSettings(s)[i].key, RequiredSettings(s)[j].key;
    assert |a| != |b| || a[6] != b[6] || a[9] != b[9] || a[10] != b[10] || a[11] != b[11];
  }

  /** The eleven settings of the deployment are valid whenever the drawn secrets contain no white space. */
  lemma RequiredSettingsAreValid(s: Secrets)
    requires Word(s.jwt) && Word(s.db) && Word(s.dbRoot) && Word(s.console) && Word(s.wireguard)
    ensures ValidSettings(RequiredSettings(s))
  {
    hide RequiredSettings;
    var r := RequiredSettings(s);
    forall i | 0 <= i < |r|
      ensures ValidKey(r[i].key) && r[i].value != "" && Stripped(r[i].value) && '\n' !in r[i].value
    {
      RequiredKeys(s, i);
      RequiredValues(s, i);
    }
    forall i, j | 0 <= i < j < |r| ensures r[i].key != r[j].key {
      RequiredKeysDiffer(s, i, j);
    }
  }

  /** A file that is completed from nothing reads as the drawn secrets and the defaults of the deployment. */
  lemma FreshFileReads(s: Secrets)
    requires Word(s.jwt) && Word(s.db) && Word(s.dbRoot) && Word(s.console) && Word(s.wireguard)
    ensures var r := Read(Completed("", RequiredSettings(s)));
            && ReadsAs(r, "G_ONE_JWT_SECRET", s.jwt) && ReadsAs(r, "G_ONE_DB_PASSWORD", s.db)
            && ReadsAs(r, "G_ONE_DB_ROOT_PASSWORD", s.dbRoot) && ReadsAs(r, "G_ONE_CONSOLE_PASSWORD", s.console)
            && ReadsAs(r, "G_ONE_WIREGUARD_PRIVATE_KEY", s.wireguard) && ReadsAs(r, "G_ONE_JWT_ISSUER", "g-one")
            && ReadsAs(r, "G_ONE_JWT_AUDIENCE", "g-one-api") && ReadsAs(r, "G_ONE_HTTP_PORT", "8000")
            && ReadsAs(r, "G_ONE_HTTP_BIND", "0.0.0.0") && ReadsAs(r, "G_ONE_DB_NAME", "g_one") && ReadsAs(r, "G_ONE_DB_USER", "g_one")
  {
    RequiredSettingsAreValid(s);
    hide ValidSettings, Completed, Read, Word;
    assert AssignedKeys("") == {};
    var r, settings := Read(Completed("", RequiredSettings(s))), RequiredSettings(s);
    forall i | 0 <= i < 11 ensures ReadsAs(r, settings[i].key, settings[i].value) {
      CompletedSuppliesValues("", settings, i);
    }
    assert ReadsAs(r, settings[0].key, settings[0].value) && ReadsAs(r, settings[1].key, settings[1].value);
    assert ReadsAs(r, settings[2].key, settings[2].value) && ReadsAs(r, settings[3].key, settings[3].value);
    assert ReadsAs(r, settings[4].key, settings[4].value) && ReadsAs(r, settings[5].key, settings[5].value);
    assert ReadsAs(r, settings[6].key, settings[6].value) && ReadsAs(r, settings[7].key, settings[7].value);
    assert ReadsAs(r, settings[8].key, settings[8].value) && ReadsAs(r, settings[9].key, settings[9].value);
    assert ReadsAs(r, settings[10].key, settings[10].value);
    hide ReadsAs;
  }

  ghost predicate ReadsAs(values: map<string, string>, key: string, value: string) {
    key in values && values[key] == value
  }
}
