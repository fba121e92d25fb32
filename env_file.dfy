/**
 * The `.env` reader both dev scripts inline (`dev/verify_fix.ts`, `dev/check_categories.ts`):
 * split the file into lines, keep a line when the pieces before and after the first `=`
 * are both non-empty, and store the trimmed pair, later lines overwriting earlier ones.
 */
module EnvFile {
  import opened Common
  import opened Text

  /** The setting a line contributes: `[key, value] = line.split('=')`, kept when both are truthy. */
  function LineEntry(line: string): (r: Option<(string, string)>)
    ensures r.Some? <==> |Split(line, '=')| >= 2 && Split(line, '=')[0] != "" && Split(line, '=')[1] != ""
    ensures r.Some? ==> r.value == (Trim(Split(line, '=')[0]), Trim(Split(line, '=')[1]))
  {
    var parts := Split(line, '=');
    if |parts| >= 2 && parts[0] != "" && parts[1] != "" then Some((Trim(parts[0]), Trim(parts[1]))) else None
  }

  /** The settings after reading `lines` in order. */
  function Settings(lines: seq<string>): map<string, string> {
    if |lines| == 0 then map[]
    else
      var before := Settings(lines[..|lines| - 1]);
      match LineEntry(lines[|lines| - 1])
      case Some(kv) => before[kv.0 := kv.1]
      case None => before
  }

  /** The `forEach` over the lines of the file. */
  method ParseEnv(content: string) returns (env: map<string, string>)
    ensures env == Settings(Split(content, '\n'))
  {
    var lines := Split(content, '\n');
    env := map[];
    for i := 0 to |lines|
      invariant env == Settings(lines[..i])
    {
      var parts := Split(lines[i], '=');
      if |parts| >= 2 && parts[0] != "" && parts[1] != "" {
        env := env[Trim(parts[0]) := Trim(parts[1])];
      }
      assert lines[..i + 1][..i] == lines[..i];
    }
    assert lines[..|lines|] == lines;
  }

  /** The line is kept and sets `key`. */
  predicate Defines(line: string, key: string) {
    LineEntry(line).Some? && LineEntry(line).value.0 == key
  }

  /** A key is set exactly when some kept line names it. */
  lemma SettingsKeys(lines: seq<string>, key: string)
    ensures key in Settings(lines) <==> exists i :: 0 <= i < |lines| && Defines(lines[i], key)
  {
    if key in Settings(lines) {
      SettingsKeySource(lines, key);
    }
    if exists i :: 0 <= i < |lines| && Defines(lines[i], key) {
      var i :| 0 <= i < |lines| && Defines(lines[i], key);
      SettingsKeyKept(lines, key, i);
    }
  }

  lemma {:induction false} SettingsKeySource(lines: seq<string>, key: string)
    requires key in Settings(lines)
    ensures exists i :: 0 <= i < |lines| && Defines(lines[i], key)
  {
    var init := lines[..|lines| - 1];
    SettingsStep(lines, key);
    if !Defines(lines[|lines| - 1], key) {
      SettingsKeySource(init, key);
      var i :| 0 <= i < |init| && Defines(init[i], key);
      assert lines[i] == init[i];
    }
  }

  lemma {:induction false} SettingsKeyKept(lines: seq<string>, key: string, i: nat)
    requires i < |lines| && Defines(lines[i], key)
    ensures key in Settings(lines)
  {
    var init := lines[..|lines| - 1];
    SettingsStep(lines, key);
    if i < |init| {
      assert init[i] == lines[i];
      SettingsKeyKept(init, key, i);
    }
  }

  lemma SettingsStep(lines: seq<string>, key: string)
    requires |lines| > 0
    ensures key in Settings(lines) <==> key in Settings(lines[..|lines| - 1]) || Defines(lines[|lines| - 1], key)
  {
  }

  /** The last kept line naming a key decides its value. */
  lemma {:induction false} SettingsLastWins(lines: seq<string>, key: string, i: nat)
    requires i < |lines| && Defines(lines[i], key)
    requires forall j :: i < j < |lines| ==> !Defines(lines[j], key)
    ensures key in Settings(lines) && Settings(lines)[key] == LineEntry(lines[i]).value.1
  {
    ValueStep(lines, key);
    if i < |lines| - 1 {
      var init := lines[..|lines| - 1];
      assert init[i] == lines[i];
      forall j | i < j < |init| ensures !Defines(init[j], key) {
        assert init[j] == lines[j];
      }
      SettingsLastWins(init, key, i);
    }
  }

  /** The last line sets the key's value when it defines the key, and otherwise leaves it as it was. */
  lemma ValueStep(lines: seq<string>, key: string)
    requires |lines| > 0
    ensures Defines(lines[|lines| - 1], key) ==> key in Settings(lines) && Settings(lines)[key] == LineEntry(lines[|lines| - 1]).value.1
    ensures !Defines(lines[|lines| - 1], key) && key in Settings(lines[..|lines| - 1]) ==>
      key in Settings(lines) && Settings(lines)[key] == Settings(lines[..|lines| - 1])[key]
  {
  }

  /** Text after a second `=` is dropped: the value is only the piece between the first two. */
  lemma SecondEqualsDropped(key: string, value: string, rest: string)
    requires key != "" && value != ""
    requires '=' !in key && '=' !in value
    ensures LineEntry(key + "=" + value + "=" + rest) == Some((Trim(key), Trim(value)))
  {
    SplitAtSeparator(value, rest, '=');
    SplitAtSeparator(key, value + "=" + rest, '=');
    assert key + "=" + value + "=" + rest == key + ['='] + (value + ['='] + rest);
  }

  /** A line with no `=`, or with nothing before or after it, sets nothing. */
  lemma LineWithoutValue(key: string)
    requires '=' !in key
    ensures LineEntry(key) == None
    ensures LineEntry(key + "=") == None
    ensures LineEntry("=" + key) == None
  {
    SplitNoSeparator(key, '=');
    SplitAtSeparator(key, "", '=');
    SplitNoSeparator("", '=');
    assert key + "=" == key + ['='] + "";
    SplitAtSeparator("", key, '=');
    assert "=" + key == "" + ['='] + key;
  }
}
