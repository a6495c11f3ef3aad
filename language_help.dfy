/**
 * `LanguageHelp` from src/lib/i18n/LanguageHelp.ts: a builder that holds
 * six translated section headers and renders a command's detailed help.
 *
 * The headers start as `null` and are set by fluent setters. `display`
 * pushes the sections in a fixed order into an array of lines and joins
 * them with `'\n'`; `join` renders a `null` header as an empty line.
 */
module I18n {
  import opened Wrappers
  import opened Strings

  /** `LanguageHelpDisplayOptions`; an absent list is the empty list it defaults to. */
  datatype DisplayOptions = DisplayOptions(
    usages: seq<string>,
    extendedHelp: Option<string>,
    explainedUsage: seq<(string, string)>,
    possibleFormats: seq<(string, string)>,
    examples: seq<Option<string>>,
    reminder: Option<string>)

  /** The six header fields of a builder, `None` standing for `null`. */
  datatype HelpHeaders = HelpHeaders(
    usages: Option<string>,
    extendedHelp: Option<string>,
    explainedUsage: Option<string>,
    possibleFormats: Option<string>,
    examples: Option<string>,
    reminder: Option<string>)

  /** How `join` renders an element: `null` as the empty string. */
  function Text(header: Option<string>): string {
    header.GetOr("")
  }

  /** A JavaScript string is truthy when it is present and non-empty. */
  predicate Truthy(s: Option<string>) {
    s.Some? && |s.value| > 0
  }

  function UsageLine(name: string, usage: string): string {
    "→ /" + name + (if |usage| == 0 then "" else " *" + usage + "*")
  }

  function PairLine(pair: (string, string)): string {
    "→ **" + pair.0 + "**: " + pair.1
  }

  function ExampleLine(name: string, example: Option<string>): string {
    "→ /" + name + (if Truthy(example) then " *" + example.value + "*" else "")
  }

  /** `usages.map(...)`, `explainedUsage.map(...)` and `examples.map(...)` of `display`. */
  function UsageLines(name: string, usages: seq<string>): (lines: seq<string>)
    ensures |lines| == |usages|
  {
    seq(|usages|, i requires 0 <= i < |usages| => UsageLine(name, usages[i]))
  }

  function PairLines(pairs: seq<(string, string)>): (lines: seq<string>)
    ensures |lines| == |pairs|
  {
    seq(|pairs|, i requires 0 <= i < |pairs| => PairLine(pairs[i]))
  }

  function ExampleLines(name: string, examples: seq<Option<string>>): (lines: seq<string>)
    ensures |lines| == |examples|
  {
    seq(|examples|, i requires 0 <= i < |examples| => ExampleLine(name, examples[i]))
  }

  function UsagesSection(header: Option<string>, name: string, usages: seq<string>): seq<string> {
    if |usages| == 0 then []
    else [Text(header)] + UsageLines(name, usages) + [""]
  }

  function ExtendedHelpSection(header: Option<string>, extendedHelp: Option<string>): seq<string> {
    if Truthy(extendedHelp) then [Text(header), extendedHelp.value, ""] else []
  }

  /** The explained-usage and possible-formats sections share this form. */
  function PairsSection(header: Option<string>, pairs: seq<(string, string)>): seq<string> {
    if |pairs| == 0 then []
    else [Text(header)] + PairLines(pairs) + [""]
  }

  function ExamplesSection(header: Option<string>, name: string, examples: seq<Option<string>>): seq<string> {
    if |examples| == 0 then [Text(header), "→ /" + name, ""]
    else [Text(header)] + ExampleLines(name, examples) + [""]
  }

  function ReminderSection(header: Option<string>, reminder: Option<string>): seq<string> {
    if Truthy(reminder) then [Text(header), reminder.value] else []
  }

  /** The lines `display` pushes, section after section. */
  function HelpLines(headers: HelpHeaders, name: string, options: DisplayOptions): seq<string> {
    UsagesSection(headers.usages, name, options.usages)
    + ExtendedHelpSection(headers.extendedHelp, options.extendedHelp)
    + PairsSection(headers.explainedUsage, options.explainedUsage)
    + PairsSection(headers.possibleFormats, options.possibleFormats)
    + ExamplesSection(headers.examples, name, options.examples)
    + ReminderSection(headers.reminder, options.reminder)
  }

  class LanguageHelp {
    var usages: Option<string>
    var extendedHelp: Option<string>
    var explainedUsage: Option<string>
    var possibleFormats: Option<string>
    var examples: Option<string>
    var reminder: Option<string>

    constructor ()
      ensures Headers() == HelpHeaders(None, None, None, None, None, None)
    {
      usages, extendedHelp, explainedUsage := None, None, None;
      possibleFormats, examples, reminder := None, None, None;
    }

    function Headers(): HelpHeaders
      reads this
    {
      HelpHeaders(usages, extendedHelp, explainedUsage, possibleFormats, examples, reminder)
    }

    method SetUsages(text: string) returns (self: LanguageHelp)
      modifies this`usages
      ensures self == this
      ensures Headers() == old(Headers()).(usages := Some(text))
    {
      usages := Some(text);
      return this;
    }

    method SetExplainedUsage(text: string) returns (self: LanguageHelp)
      modifies this`explainedUsage
      ensures self == this
      ensures Headers() == old(Headers()).(explainedUsage := Some(text))
    {
      explainedUsage := Some(text);
      return this;
    }

    method SetExtendedHelp(text: string) returns (self: LanguageHelp)
      modifies this`extendedHelp
      ensures self == this
      ensures Headers() == old(Headers()).(extendedHelp := Some(text))
    {
      extendedHelp := Some(text);
      return this;
    }

    method SetPossibleFormats(text: string) returns (self: LanguageHelp)
      modifies this`possibleFormats
      ensures self == this
      ensures Headers() == old(Headers()).(possibleFormats := Some(text))
    {
      possibleFormats := Some(text);
      return this;
    }

    method SetExamples(text: string) returns (self: LanguageHelp)
      modifies this`examples
      ensures self == this
      ensures Headers() == old(Headers()).(examples := Some(text))
    {
      examples := Some(text);
      return this;
    }

    method SetReminder(text: string) returns (self: LanguageHelp)
      modifies this`reminder
      ensures self == this
      ensures Headers() == old(Headers()).(reminder := Some(text))
    {
      reminder := Some(text);
      return this;
    }

    /** `display(name, options)`: the help text, one line per pushed element. */
    method Display(name: string, options: DisplayOptions) returns (text: string)
      ensures text == Join(HelpLines(Headers(), name, options), '\n')
    {
      ghost var h := Headers();
      var output: seq<string> := [];
      if |options.usages| > 0 {
        output := output + ([Text(usages)] + UsageLines(name, options.usages) + [""]);
      }
      ghost var done := UsagesSection(h.usages, name, options.usages);
      assert output == done;
      if Truthy(options.extendedHelp) {
        output := output + [Text(extendedHelp), options.extendedHelp.value, ""];
      }
      done := done + ExtendedHelpSection(h.extendedHelp, options.extendedHelp);
      assert output == done;
      if |options.explainedUsage| > 0 {
        output := output + ([Text(explainedUsage)] + PairLines(options.explainedUsage) + [""]);
      }
      done := done + PairsSection(h.explainedUsage, options.explainedUsage);
      assert output == done;
      if |options.possibleFormats| > 0 {
        output := output + ([Text(possibleFormats)] + PairLines(options.possibleFormats) + [""]);
      }
      done := done + PairsSection(h.possibleFormats, options.possibleFormats);
      assert output == done;
      if |options.examples| > 0 {
        output := output + ([Text(examples)] + ExampleLines(name, options.examples) + [""]);
      } else {
        output := output + [Text(examples), "→ /" + name, ""];
      }
      done := done + ExamplesSection(h.examples, name, options.examples);
      assert output == done;
      if Truthy(options.reminder) {
        output := output + [Text(reminder), options.reminder.value];
      }
      done := done + ReminderSection(h.reminder, options.reminder);
      assert output == done;
      text := Join(output, '\n');
    }
  }

  /** How many lines each section contributes; the examples section is never empty. */
  lemma HelpLinesCount(headers: HelpHeaders, name: string, options: DisplayOptions)
    ensures |HelpLines(headers, name, options)|
         == (if |options.usages| > 0 then |options.usages| + 2 else 0)
          + (if Truthy(options.extendedHelp) then 3 else 0)
          + (if |options.explainedUsage| > 0 then |options.explainedUsage| + 2 else 0)
          + (if |options.possibleFormats| > 0 then |options.possibleFormats| + 2 else 0)
          + (if |options.examples| > 0 then |options.examples| + 2 else 3)
          + (if Truthy(options.reminder) then 2 else 0)
  {
  }

  /** The reminder text closes the help when there is one; otherwise the examples' blank line does. */
  lemma HelpLinesLast(headers: HelpHeaders, name: string, options: DisplayOptions)
    ensures |HelpLines(headers, name, options)| >= 3
    ensures HelpLines(headers, name, options)[|HelpLines(headers, name, options)| - 1]
         == if Truthy(options.reminder) then options.reminder.value else ""
  {
  }

  /** The help opens with the usages header when there are usages, else with the next section present. */
  lemma HelpLinesFirst(headers: HelpHeaders, name: string, options: DisplayOptions)
    ensures HelpLines(headers, name, options)[0]
         == if |options.usages| > 0 then Text(headers.usages)
            else if Truthy(options.extendedHelp) then Text(headers.extendedHelp)
            else if |options.explainedUsage| > 0 then Text(headers.explainedUsage)
            else if |options.possibleFormats| > 0 then Text(headers.possibleFormats)
            else Text(headers.examples)
  {
  }

  /** Nothing the help is built from holds a line break. */
  predicate SingleLineInputs(headers: HelpHeaders, name: string, options: DisplayOptions) {
    && Free(Text(headers.usages), '\n') && Free(Text(headers.extendedHelp), '\n')
    && Free(Text(headers.explainedUsage), '\n') && Free(Text(headers.possibleFormats), '\n')
    && Free(Text(headers.examples), '\n') && Free(Text(headers.reminder), '\n')
    && Free(name, '\n')
    && (forall i :: 0 <= i < |options.usages| ==> Free(options.usages[i], '\n'))
    && Free(Text(options.extendedHelp), '\n')
    && (forall i :: 0 <= i < |options.explainedUsage| ==>
          Free(options.explainedUsage[i].0, '\n') && Free(options.explainedUsage[i].1, '\n'))
    && (forall i :: 0 <= i < |options.possibleFormats| ==>
          Free(options.possibleFormats[i].0, '\n') && Free(options.possibleFormats[i].1, '\n'))
    && (forall i :: 0 <= i < |options.examples| ==> Free(Text(options.examples[i]), '\n'))
    && Free(Text(options.reminder), '\n')
  }

  predicate AllFree(lines: seq<string>) {
    forall k :: 0 <= k < |lines| ==> Free(lines[k], '\n')
  }

  lemma AllFreeAppend(a: seq<string>, b: seq<string>)
    requires AllFree(a) && AllFree(b)
    ensures AllFree(a + b)
  {
    forall k | 0 <= k < |a + b| ensures Free((a + b)[k], '\n') {
      if k < |a| { assert (a + b)[k] == a[k]; } else { assert (a + b)[k] == b[k - |a|]; }
    }
  }

  lemma FreeAppend(a: string, b: string)
    requires Free(a, '\n') && Free(b, '\n')
    ensures Free(a + b, '\n')
  {
    forall k | 0 <= k < |a + b| ensures (a + b)[k] != '\n' {
      if k < |a| { assert (a + b)[k] == a[k]; } else { assert (a + b)[k] == b[k - |a|]; }
    }
  }

  lemma UsageLineFree(name: string, usage: string)
    requires Free(name, '\n') && Free(usage, '\n')
    ensures Free(UsageLine(name, usage), '\n')
  {
    FreeAppend("→ /", name);
    if |usage| > 0 {
      FreeAppend(" *", usage);
      FreeAppend(" *" + usage, "*");
    }
    FreeAppend("→ /" + name, if |usage| == 0 then "" else " *" + usage + "*");
  }

  lemma PairLineFree(pair: (string, string))
    requires Free(pair.0, '\n') && Free(pair.1, '\n')
    ensures Free(PairLine(pair), '\n')
  {
    FreeAppend("→ **", pair.0);
    FreeAppend("→ **" + pair.0, "**: ");
    FreeAppend("→ **" + pair.0 + "**: ", pair.1);
  }

  lemma ExampleLineFree(name: string, example: Option<string>)
    requires Free(name, '\n') && Free(Text(example), '\n')
    ensures Free(ExampleLine(name, example), '\n')
  {
    FreeAppend("→ /", name);
    if Truthy(example) {
      FreeAppend(" *", example.value);
      FreeAppend(" *" + example.value, "*");
    }
    FreeAppend("→ /" + name, if Truthy(example) then " *" + example.value + "*" else "");
  }

  lemma HelpLinesFree(headers: HelpHeaders, name: string, options: DisplayOptions)
    requires SingleLineInputs(headers, name, options)
    ensures AllFree(HelpLines(headers, name, options))
  {
    var u := UsagesSection(headers.usages, name, options.usages);
    forall i | 0 <= i < |options.usages| { UsageLineFree(name, options.usages[i]); }
    var e := ExtendedHelpSection(headers.extendedHelp, options.extendedHelp);
    var x := PairsSection(headers.explainedUsage, options.explainedUsage);
    forall i | 0 <= i < |options.explainedUsage| { PairLineFree(options.explainedUsage[i]); }
    var p := PairsSection(headers.possibleFormats, options.possibleFormats);
    forall i | 0 <= i < |options.possibleFormats| { PairLineFree(options.possibleFormats[i]); }
    var m := ExamplesSection(headers.examples, name, options.examples);
    forall i | 0 <= i < |options.examples| { ExampleLineFree(name, options.examples[i]); }
    FreeAppend("→ /", name);
    var r := ReminderSection(headers.reminder, options.reminder);
    assert AllFree(u) && AllFree(e) && AllFree(x) && AllFree(p) && AllFree(m) && AllFree(r);
    AllFreeAppend(u, e);
    AllFreeAppend(u + e, x);
    AllFreeAppend(u + e + x, p);
    AllFreeAppend(u + e + x + p, m);
    AllFreeAppend(u + e + x + p + m, r);
  }

  /**
   * The rendered help is exactly its lines joined with `'\n'`: splitting it
   * at line breaks gives back the sections' lines, so it has as many lines
   * as `HelpLinesCount` says.
   */
  lemma HelpTextSplitsIntoLines(headers: HelpHeaders, name: string, options: DisplayOptions)
    requires SingleLineInputs(headers, name, options)
    ensures SplitOn(Join(HelpLines(headers, name, options), '\n'), '\n') == HelpLines(headers, name, options)
  {
    HelpLinesFree(headers, name, options);
    HelpLinesLast(headers, name, options);
    SplitOnJoin(HelpLines(headers, name, options), '\n');
  }

  /** A builder whose headers were never set renders them as empty lines: with no options, only the example line remains. */
  lemma UnsetHeadersRenderEmpty(name: string)
    ensures Join(HelpLines(HelpHeaders(None, None, None, None, None, None), name, DisplayOptions([], None, [], [], [], None)), '\n')
         == "\n→ /" + name + "\n"
  {
    var lines := HelpLines(HelpHeaders(None, None, None, None, None, None), name, DisplayOptions([], None, [], [], [], None));
    assert lines == ["", "→ /" + name, ""];
    assert Join(lines[2..], '\n') == "";
    assert Join(lines[1..], '\n') == "→ /" + name + "\n";
  }
}
