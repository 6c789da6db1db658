/** The end-to-end model runner's scenario step (`ModelRunner.generate_scenario_json`):
    the list of template replacements built from the input, output and shader file
    names, the substitution applied to the scenario template, and the `.vgf` and
    `.json` file names derived from the model path. */
module ModelRunner {
  import opened Outcome
  import Text

  /** The three kinds of template token. */
  datatype Family = InputFamily | OutputFamily | ShaderFamily

  /** The file lists given on the command line. */
  datatype Files = Files(inputs: seq<string>, outputs: seq<string>, shaders: seq<string>)

  function TokenPrefix(f: Family): (p: string)
    ensures |p| >= 26
  {
    match f
    case InputFamily => "TEMPLATE_PATH_TENSOR_INPUT_"
    case OutputFamily => "TEMPLATE_PATH_TENSOR_OUTPUT_"
    case ShaderFamily => "TEMPLATE_PATH_SHADER_GLSL_"
  }

  /** `f"TEMPLATE_PATH_TENSOR_INPUT_{i}"` and its two siblings. */
  function Token(f: Family, i: nat): (t: string)
    ensures |t| >= 27
  {
    TokenPrefix(f) + Text.NatToString(i)
  }

  function Values(files: Files, f: Family): seq<string> {
    match f
    case InputFamily => files.inputs
    case OutputFamily => files.outputs
    case ShaderFamily => files.shaders
  }

  /** Where a family's entries start in the replacement list. */
  function Offset(files: Files, f: Family): nat {
    match f
    case InputFamily => 0
    case OutputFamily => |files.inputs|
    case ShaderFamily => |files.inputs| + |files.outputs|
  }

  /** One loop of `generate_scenario_json`: token `i` of the family paired with the
      `i`-th file name. */
  function Pairs(f: Family, names: seq<string>): seq<(string, string)> {
    seq(|names|, i requires 0 <= i < |names| => (Token(f, i), names[i]))
  }

  /** `template_replacements`: all inputs, then all outputs, then all shaders. */
  function Replacements(files: Files): (reps: seq<(string, string)>)
    ensures |reps| == |files.inputs| + |files.outputs| + |files.shaders|
    ensures forall f: Family, i | 0 <= i < |Values(files, f)| ::
      Offset(files, f) + i < |reps| && reps[Offset(files, f) + i] == (Token(f, i), Values(files, f)[i])
  {
    Pairs(InputFamily, files.inputs) + Pairs(OutputFamily, files.outputs) + Pairs(ShaderFamily, files.shaders)
  }

  /** Entry `k` of the replacement list, by family and position. */
  lemma EntryAt(files: Files, k: nat)
    requires k < |files.inputs| + |files.outputs| + |files.shaders|
    ensures var f := EntryFamily(files, k);
      var i := k - Offset(files, f);
      Replacements(files)[k] == (Token(f, i), Values(files, f)[i])
  {
    var f := EntryFamily(files, k);
    var i := k - Offset(files, f);
    assert Offset(files, f) + i == k;
  }

  /** The family of entry `k` of the replacement list. */
  function EntryFamily(files: Files, k: nat): (f: Family)
    requires k < |files.inputs| + |files.outputs| + |files.shaders|
    ensures Offset(files, f) <= k < Offset(files, f) + |Values(files, f)|
  {
    if k < |files.inputs| then InputFamily
    else if k < |files.inputs| + |files.outputs| then OutputFamily
    else ShaderFamily
  }

  // ----- The substitution as written -----

  /** The loop `for (old, new) in template_replacements: scenario =
      scenario.replace(old, new)`. */
  function Substitute(text: string, reps: seq<(string, string)>): (r: string)
    ensures reps == [] ==> r == text
    ensures reps != [] ==>
      r == Text.Replace(Substitute(text, reps[..|reps| - 1]), reps[|reps| - 1].0, reps[|reps| - 1].1)
    decreases |reps|
  {
    if reps == [] then text
    else if |reps| == 1 then
      assert reps[..0] == [] && reps[1..] == [];
      Substitute(Text.Replace(text, reps[0].0, reps[0].1), reps[1..])
    else
      assert reps[..|reps| - 1][1..] == reps[1..][..|reps[1..]| - 1];
      assert reps[1..][|reps[1..]| - 1] == reps[|reps| - 1];
      Substitute(Text.Replace(text, reps[0].0, reps[0].1), reps[1..])
  }

  /** A template in which no token occurs comes back unchanged. */
  lemma {:induction false} SubstituteNoToken(text: string, reps: seq<(string, string)>)
    requires forall k | 0 <= k < |reps| :: |reps[k].0| > 0 && !Text.Contains(text, reps[k].0)
    ensures Substitute(text, reps) == text
    decreases |reps|
  {
    if reps != [] {
      Text.ReplaceAbsent(text, reps[0].0, reps[0].1);
      SubstituteNoToken(text, reps[1..]);
    }
  }

  /** Text shorter than every remaining token is left alone. */
  lemma ShortTextUnchanged(text: string, reps: seq<(string, string)>)
    requires forall k | 0 <= k < |reps| :: |reps[k].0| > |text|
    ensures Substitute(text, reps) == text
  {
    forall k | 0 <= k < |reps|
      ensures |reps[k].0| > 0 && !Text.Contains(text, reps[k].0)
    {
      Text.LongerAbsent(text, reps[k].0);
    }
    SubstituteNoToken(text, reps);
  }

  /** With eleven or more inputs, the template token for input 10 is rewritten by
      the earlier pair for input 1: what is left is the value of input 1 followed
      by `0`, not the value of input 10. */
  lemma SequentialCollision(files: Files)
    requires |files.inputs| >= 11 && |files.inputs[1]| < 26
    ensures Substitute(Token(InputFamily, 10), Replacements(files)) == files.inputs[1] + "0"
  {
    var reps := Replacements(files);
    var p := TokenPrefix(InputFamily);
    var text := Token(InputFamily, 10);
    assert Text.NatToString(10) == "10";
    assert Text.NatToString(0) == "0" && Text.NatToString(1) == "1";
    assert text == p + "10";
    // input 0 does not occur: its token is the prefix followed by `0`
    var t0 := reps[0].0;
    assert t0 == p + "0";
    assert text[..28][27] == text[27] != t0[27];
    assert text[1..29][0] == text[1] != t0[0];
    assert !Text.Contains(text, t0);
    Text.ReplaceAbsent(text, t0, reps[0].1);
    // input 1 matches the start of the token
    var t1 := reps[1].0;
    assert t1 == p + "1";
    assert text == t1 + "0";
    assert text[..|t1|] == t1;
    Text.ReplacePrefix(text, t1, reps[1].1);
    assert text[|t1|..] == "0";
    assert Text.Replace("0", t1, reps[1].1) == "0";
    var rest := reps[2..];
    assert reps[1..][1..] == rest;
    ShortTextUnchanged(files.inputs[1] + "0", rest);
  }

  // ----- The corrected substitution: one pass, longest token first -----

  predicate MatchesAt(text: string, token: string) {
    |token| > 0 && token <= text
  }

  /** Among the first `n` entries, the one with the longest token that starts
      `text` (the earliest of equally long ones). */
  function Best(text: string, reps: seq<(string, string)>, n: nat): (r: Option<nat>)
    requires n <= |reps|
    ensures r.None? <==> forall k | 0 <= k < n :: !MatchesAt(text, reps[k].0)
    ensures r.Some? ==> r.value < n && MatchesAt(text, reps[r.value].0)
    ensures r.Some? ==> forall k | 0 <= k < n && MatchesAt(text, reps[k].0) :: |reps[k].0| <= |reps[r.value].0|
  {
    if n == 0 then None
    else
      var b := Best(text, reps, n - 1);
      if MatchesAt(text, reps[n - 1].0) && (b.None? || |reps[n - 1].0| > |reps[b.value].0|) then Some(n - 1)
      else b
  }

  /** Left to right: where a token starts, its value is emitted and the token
      skipped; elsewhere one character is copied. Output is never rescanned. */
  function Scan(text: string, reps: seq<(string, string)>): string
    decreases |text|
  {
    if text == [] then []
    else match Best(text, reps, |reps|)
      case Some(k) => reps[k].1 + Scan(text[|reps[k].0|..], reps)
      case None => [text[0]] + Scan(text[1..], reps)
  }

  /** A template in which no token occurs comes back unchanged. */
  lemma {:induction false} ScanNoToken(text: string, reps: seq<(string, string)>)
    requires forall k | 0 <= k < |reps| :: |reps[k].0| > 0 && !Text.Contains(text, reps[k].0)
    ensures Scan(text, reps) == text
    decreases |text|
  {
    if text != [] {
      forall k | 0 <= k < |reps|
        ensures !MatchesAt(text, reps[k].0)
      {
        if MatchesAt(text, reps[k].0) {
          assert Text.OccursAt(text, reps[k].0, 0);
        }
      }
      forall k | 0 <= k < |reps|
        ensures !Text.Contains(text[1..], reps[k].0)
      {
        if Text.Contains(text[1..], reps[k].0) {
          var i: nat :| i <= |text[1..]| && Text.OccursAt(text[1..], reps[k].0, i);
          assert text[1..][i..i + |reps[k].0|] == text[i + 1..i + 1 + |reps[k].0|];
          assert Text.OccursAt(text, reps[k].0, i + 1);
        }
      }
      ScanNoToken(text[1..], reps);
    }
  }

  /** A character no token starts with is copied. */
  lemma ScanPlainChar(c: char, rest: string, files: Files)
    requires c != 'T'
    ensures Scan([c] + rest, Replacements(files)) == [c] + Scan(rest, Replacements(files))
  {
    var reps := Replacements(files);
    var text := [c] + rest;
    forall k | 0 <= k < |reps|
      ensures !MatchesAt(text, reps[k].0)
    {
      var f := EntryFamily(files, k);
      var i := k - Offset(files, f);
      assert reps[k].0 == Token(f, i);
      assert Token(f, i)[0] == 'T';
    }
    assert text[1..] == rest;
  }

  /** Tokens of different families disagree at position 14 or 21. */
  lemma FamiliesDiffer(f: Family, g: Family)
    requires f != g
    ensures TokenPrefix(f)[14] != TokenPrefix(g)[14] || TokenPrefix(f)[21] != TokenPrefix(g)[21]
  {
  }

  /** A digit string that starts `b + rest` and is longer than `b` runs on into
      `rest`, whose first character is then a digit. */
  lemma DigitsRunOn(a: string, b: string, rest: string)
    requires forall k | 0 <= k < |a| :: Text.IsDigit(a[k])
    requires a <= b + rest && |a| > |b|
    ensures rest != [] && Text.IsDigit(rest[0])
  {
    assert a[|b|] == (b + rest)[|b|];
  }

  /** A token that starts `Token(f, j) + rest` (rest not continuing the number) is
      of the same family and no longer; if as long, it is the same token. */
  lemma TokenMatch(g: Family, k: nat, f: Family, j: nat, rest: string)
    requires rest == [] || !Text.IsDigit(rest[0])
    requires Token(g, k) <= Token(f, j) + rest
    ensures g == f
    ensures |Token(g, k)| <= |Token(f, j)|
    ensures |Token(g, k)| == |Token(f, j)| ==> k == j
  {
    var text := Token(f, j) + rest;
    var tk := Token(g, k);
    assert tk[14] == text[14] && tk[21] == text[21];
    assert tk[14] == TokenPrefix(g)[14] && tk[21] == TokenPrefix(g)[21];
    assert text[14] == TokenPrefix(f)[14] && text[21] == TokenPrefix(f)[21];
    if g != f {
      FamiliesDiffer(g, f);
    }
    var p := TokenPrefix(f);
    var dk := Text.NatToString(k);
    var dj := Text.NatToString(j);
    assert text == p + (dj + rest);
    assert tk == p + dk;
    assert dk <= dj + rest by {
      assert forall m | 0 <= m < |dk| :: dk[m] == tk[|p| + m] == text[|p| + m] == (dj + rest)[m];
    }
    if |dk| > |dj| {
      DigitsRunOn(dk, dj, rest);
    }
    if |dk| == |dj| {
      assert dk == (dj + rest)[..|dk|] == dj;
      Text.RenderInjective(k, j);
    }
  }

  /** An entry that matches, and that every other match is shorter than, is the
      one chosen. */
  lemma BestUnique(text: string, reps: seq<(string, string)>, e: nat)
    requires e < |reps| && MatchesAt(text, reps[e].0)
    requires forall k | 0 <= k < |reps| && MatchesAt(text, reps[k].0) && |reps[k].0| >= |reps[e].0| :: k == e
    ensures Best(text, reps, |reps|) == Some(e)
  {
  }

  /** Where token `j` of family `f` starts (and the number does not go on), its
      own entry is the longest match. */
  lemma BestIsToken(files: Files, f: Family, j: nat, rest: string)
    requires j < |Values(files, f)|
    requires rest == [] || !Text.IsDigit(rest[0])
    ensures Best(Token(f, j) + rest, Replacements(files), |Replacements(files)|) == Some(Offset(files, f) + j)
  {
    var reps, text, e := Replacements(files), Token(f, j) + rest, Offset(files, f) + j;
    OwnEntryMatches(files, f, j, rest);
    assert e < |reps| && MatchesAt(text, reps[e].0);
    NoOtherLongMatch(files, f, j, rest);
    BestUnique(text, reps, e);
  }

  /** Token `j`'s own entry matches where that token starts. */
  lemma OwnEntryMatches(files: Files, f: Family, j: nat, rest: string)
    requires j < |Values(files, f)|
    ensures Offset(files, f) + j < |Replacements(files)|
    ensures Replacements(files)[Offset(files, f) + j].0 == Token(f, j)
    ensures MatchesAt(Token(f, j) + rest, Replacements(files)[Offset(files, f) + j].0)
  {
    assert Replacements(files)[Offset(files, f) + j] == (Token(f, j), Values(files, f)[j]);
    assert Token(f, j) <= Token(f, j) + rest;
  }

  lemma NoOtherLongMatch(files: Files, f: Family, j: nat, rest: string)
    requires j < |Values(files, f)|
    requires rest == [] || !Text.IsDigit(rest[0])
    requires Offset(files, f) + j < |Replacements(files)|
    ensures forall k | 0 <= k < |Replacements(files)| && MatchesAt(Token(f, j) + rest, Replacements(files)[k].0)
      && |Replacements(files)[k].0| >= |Replacements(files)[Offset(files, f) + j].0| :: k == Offset(files, f) + j
  {
    OwnEntryMatches(files, f, j, rest);
    forall k | 0 <= k < |Replacements(files)| && MatchesAt(Token(f, j) + rest, Replacements(files)[k].0)
      && |Replacements(files)[k].0| >= |Replacements(files)[Offset(files, f) + j].0|
      ensures k == Offset(files, f) + j
    {
      OnlyOwnEntry(files, f, j, rest, k);
    }
  }

  /** No other entry matches `Token(f, j) + rest` with a token at least as long. */
  lemma OnlyOwnEntry(files: Files, f: Family, j: nat, rest: string, k: nat)
    requires j < |Values(files, f)|
    requires rest == [] || !Text.IsDigit(rest[0])
    requires k < |Replacements(files)|
    requires MatchesAt(Token(f, j) + rest, Replacements(files)[k].0)
    requires |Replacements(files)[k].0| >= |Token(f, j)|
    ensures k == Offset(files, f) + j
  {
    EntryAt(files, k);
    var g := EntryFamily(files, k);
    var i := k - Offset(files, g);
    var tk := Replacements(files)[k].0;
    assert tk == Token(g, i);
    TokenMatch(g, i, f, j, rest);
  }

  /** Where token `j` of family `f` starts (and the number does not go on), the
      scan emits exactly that entry's value and resumes after the token. */
  lemma ScanToken(files: Files, f: Family, j: nat, rest: string)
    requires j < |Values(files, f)|
    requires rest == [] || !Text.IsDigit(rest[0])
    ensures Scan(Token(f, j) + rest, Replacements(files)) == Values(files, f)[j] + Scan(rest, Replacements(files))
  {
    var reps := Replacements(files);
    var text := Token(f, j) + rest;
    BestIsToken(files, f, j, rest);
    assert reps[Offset(files, f) + j] == (Token(f, j), Values(files, f)[j]);
    assert text[|Token(f, j)|..] == rest;
  }

  /** The corrected substitution replaces every token by its own value: a token
      between quotes, as the template holds it, becomes the quoted file name,
      whatever other tokens share its leading digits. */
  lemma ScanQuotedToken(files: Files, f: Family, j: nat)
    requires j < |Values(files, f)|
    ensures Scan("\"" + Token(f, j) + "\"", Replacements(files)) == "\"" + Values(files, f)[j] + "\""
  {
    var q, t, reps := "\"", Token(f, j), Replacements(files);
    assert q + t + q == q + (t + q);
    QuoteCopied(t + q, files);
    ScanToken(files, f, j, q);
    assert q + [] == q;
    QuoteCopied([], files);
    assert Scan(q, reps) == q + Scan([], reps) == q;
  }

  /** A leading quote is copied and the scan goes on with the rest. */
  lemma QuoteCopied(rest: string, files: Files)
    ensures Scan("\"" + rest, Replacements(files)) == "\"" + Scan(rest, Replacements(files))
  {
    assert "\"" + rest == ['"'] + rest;
    ScanPlainChar('"', rest, files);
  }

  /** On the collision input, the corrected substitution yields input 10's value. */
  lemma ScanNoCollision(files: Files)
    requires |files.inputs| >= 11
    ensures Scan(Token(InputFamily, 10), Replacements(files)) == files.inputs[10]
  {
    ScanToken(files, InputFamily, 10, []);
    assert Token(InputFamily, 10) + [] == Token(InputFamily, 10);
  }

  /** `text` begins with token `j` of family `f`, and the number does not go on. */
  predicate StartsWithToken(text: string, f: Family, j: nat) {
    Token(f, j) <= text && (|text| == |Token(f, j)| || !Text.IsDigit(text[|Token(f, j)|]))
  }

  /** `ScanNoToken` for the replacement list, as an implication. */
  lemma ScanTokenFree(template: string, files: Files)
    ensures (forall k | 0 <= k < |Replacements(files)| :: !Text.Contains(template, Replacements(files)[k].0))
      ==> Scan(template, Replacements(files)) == template
  {
    var reps := Replacements(files);
    if forall k | 0 <= k < |reps| :: !Text.Contains(template, reps[k].0) {
      forall k | 0 <= k < |reps| ensures |reps[k].0| > 0 {
        EntryAt(files, k);
        var f := EntryFamily(files, k);
        assert reps[k].0 == Token(f, k - Offset(files, f));
      }
      ScanNoToken(template, reps);
    }
  }

  /** `ScanToken` for every token the template may begin with. */
  lemma ScanLeadingToken(template: string, files: Files)
    ensures forall f: Family, j: nat | j < |Values(files, f)| && StartsWithToken(template, f, j) ::
      Scan(template, Replacements(files)) == Values(files, f)[j] + Scan(template[|Token(f, j)|..], Replacements(files))
  {
    forall f: Family, j: nat | j < |Values(files, f)| && StartsWithToken(template, f, j)
      ensures Scan(template, Replacements(files)) == Values(files, f)[j] + Scan(template[|Token(f, j)|..], Replacements(files))
    {
      var rest := template[|Token(f, j)|..];
      assert template == Token(f, j) + rest;
      ScanToken(files, f, j, rest);
    }
  }

  /** `generate_scenario_json` on the template text, with the corrected
      substitution: a token-free template is written back as it is; a leading
      token becomes its own file, with the rest substituted in the same way; a
      leading character that starts no token is copied. */
  function GenerateScenarioText(template: string, files: Files): (out: string)
    ensures (forall k | 0 <= k < |Replacements(files)| :: !Text.Contains(template, Replacements(files)[k].0))
      ==> out == template
    ensures forall f: Family, j: nat | j < |Values(files, f)| && StartsWithToken(template, f, j) ::
      out == Values(files, f)[j] + Scan(template[|Token(f, j)|..], Replacements(files))
    ensures template != [] && template[0] != 'T' ==> out == [template[0]] + Scan(template[1..], Replacements(files))
  {
    ScanTokenFree(template, files);
    ScanLeadingToken(template, files);
    if template != [] && template[0] != 'T' then
      assert template == [template[0]] + template[1..];
      ScanPlainChar(template[0], template[1..], files);
      Scan(template, Replacements(files))
    else Scan(template, Replacements(files))
  }

  /** In the template's own terms: a token followed by anything but a digit
      becomes its file, followed by the substituted rest. */
  lemma GenerateReplacesToken(files: Files, f: Family, j: nat, rest: string)
    requires j < |Values(files, f)|
    requires rest == [] || !Text.IsDigit(rest[0])
    ensures GenerateScenarioText(Token(f, j) + rest, files) == Values(files, f)[j] + GenerateScenarioText(rest, files)
  {
    ScanToken(files, f, j, rest);
  }

  // ----- File names -----

  /** The index of the last `.` of `name`, if any. */
  function LastDot(name: string): (r: Option<nat>)
    ensures r.Some? ==> r.value < |name| && name[r.value] == '.'
    ensures r.Some? ==> forall k | r.value < k < |name| :: name[k] != '.'
    ensures r.None? ==> forall k | 0 <= k < |name| :: name[k] != '.'
    decreases |name|
  {
    if name == [] then None
    else if name[|name| - 1] == '.' then Some(|name| - 1)
    else LastDot(name[..|name| - 1])
  }

  /** The final component without its suffix: pathlib counts a suffix only from a
      last `.` that is neither the first nor the last character. */
  function Stem(name: string): (r: string)
    ensures r <= name
    ensures |r| < |name| ==> 0 < |r| < |name| - 1 && name[|r|] == '.'
    ensures |r| < |name| ==> forall k | |r| < k < |name| :: name[k] != '.'
    ensures (forall k | 0 <= k < |name| :: name[k] != '.') ==> r == name
  {
    match LastDot(name)
    case Some(i) => if 0 < i < |name| - 1 then name[..i] else name
    case None => name
  }

  /** `pathlib.Path(p).with_suffix(suffix)` */
  function WithSuffix(p: string, suffix: string): (r: string)
    ensures |suffix| <= |r| && r[|r| - |suffix|..] == suffix
    ensures r[..|r| - |suffix|] <= p
    ensures p[..Text.BaseStart(p)] <= r
  {
    p[..Text.BaseStart(p)] + Stem(Text.Basename(p)) + suffix
  }

  /** `out_dir.joinpath(model)` for a relative model path. */
  function Join(dir: string, model: string): (r: string)
    ensures Text.Basename(r) == Text.Basename(model)
  {
    var r := dir + "/" + model;
    JoinBaseStart(dir, model);
    r
  }

  /** The last `/` of `dir/model` is the last `/` of `model`, or the joining one. */
  lemma JoinBaseStart(dir: string, model: string)
    ensures Text.BaseStart(dir + "/" + model) == |dir| + 1 + Text.BaseStart(model)
  {
    var r := dir + "/" + model;
    var k := Text.BaseStart(r);
    var k' := |dir| + 1 + Text.BaseStart(model);
    assert r[k' - 1] == '/' by {
      if Text.BaseStart(model) > 0 {
        assert r[k' - 1] == model[Text.BaseStart(model) - 1];
      }
    }
    forall j | k' <= j < |r| ensures r[j] != '/' {
      assert r[j] == model[j - |dir| - 1];
    }
  }

  /** The VGF written by the converter and the scenario written here share their
      path up to the suffix, that shared part is a prefix of the joined path, and
      the two are different files. */
  lemma SharedStem(dir: string, model: string)
    ensures var base := Join(dir, model);
      exists stem :: stem <= base && WithSuffix(base, ".vgf") == stem + ".vgf" && WithSuffix(base, ".json") == stem + ".json"
    ensures WithSuffix(Join(dir, model), ".vgf") != WithSuffix(Join(dir, model), ".json")
  {
    var base := Join(dir, model);
    var k := Text.BaseStart(base);
    var name := Text.Basename(base);
    var stem := base[..k] + Stem(name);
    assert Stem(name) <= name;
    assert stem == base[..k + |Stem(name)|];
    assert WithSuffix(base, ".vgf") == stem + ".vgf";
    assert WithSuffix(base, ".json") == stem + ".json";
    Text.LastCharDiffers(stem, ".vgf", stem, ".json");
  }
}
