/**
 * `snakeToCamel` and `createSubcommandMappings` from src/lib/utils/utils.ts.
 *
 * `snakeToCamel` makes two regular-expression passes: the first uppercases
 * every match of `[-_][a-z]` (the separator is left as it is), scanning left
 * to right; the second deletes every character outside `[a-zA-Z]`.
 * `createSubcommandMappings` binds each subcommand name to the handler
 * method named by its camel-case form.
 */
module CamelCase {
  import opened Wrappers

  predicate IsSeparator(c: char) { c == '-' || c == '_' }
  predicate IsLower(c: char) { 'a' <= c <= 'z' }
  predicate IsUpper(c: char) { 'A' <= c <= 'Z' }
  predicate IsLetter(c: char) { IsLower(c) || IsUpper(c) }

  /** `toUpperCase` on an ASCII lower-case letter. */
  function ToUpper(c: char): (u: char)
    requires IsLower(c)
    ensures IsUpper(u) && u as int - c as int == 'A' as int - 'a' as int
  {
    (c as int - 'a' as int + 'A' as int) as char
  }

  /** The first pass, `replace(/([-_][a-z])/g, (ltr) => ltr.toUpperCase())`, as its left-to-right scan. */
  function UpperAfterSeparator(s: string): (r: string)
    ensures |r| == |s|
  {
    if |s| < 2 then s
    else if IsSeparator(s[0]) && IsLower(s[1]) then [s[0], ToUpper(s[1])] + UpperAfterSeparator(s[2..])
    else [s[0]] + UpperAfterSeparator(s[1..])
  }

  /** The second pass, `replace(/[^a-zA-Z]/g, '')`. */
  function KeepLetters(s: string): (r: string)
    ensures |r| <= |s|
    ensures forall k :: 0 <= k < |r| ==> IsLetter(r[k])
  {
    if s == [] then []
    else if IsLetter(s[0]) then [s[0]] + KeepLetters(s[1..])
    else KeepLetters(s[1..])
  }

  function SnakeToCamel(s: string): string {
    KeepLetters(UpperAfterSeparator(s))
  }

  /** Reference definition of the first pass, position by position: a lower-case letter right after `-` or `_` is uppercased. */
  function CamelAt(s: string, i: nat): char
    requires i < |s|
  {
    if i > 0 && IsSeparator(s[i - 1]) && IsLower(s[i]) then ToUpper(s[i]) else s[i]
  }

  lemma {:induction false} UpperAfterSeparatorAt(s: string)
    ensures forall i :: 0 <= i < |s| ==> UpperAfterSeparator(s)[i] == CamelAt(s, i)
  {
    if |s| >= 2 {
      var r := UpperAfterSeparator(s);
      if IsSeparator(s[0]) && IsLower(s[1]) {
        var t := s[2..];
        UpperAfterSeparatorAt(t);
        forall i | 2 <= i < |s| ensures r[i] == CamelAt(s, i) {
          assert r[i] == UpperAfterSeparator(t)[i - 2] == CamelAt(t, i - 2);
          assert t[i - 2] == s[i];
          if i > 2 { assert t[i - 3] == s[i - 1]; }
        }
      } else {
        var t := s[1..];
        UpperAfterSeparatorAt(t);
        forall i | 1 <= i < |s| ensures r[i] == CamelAt(s, i) {
          assert r[i] == UpperAfterSeparator(t)[i - 1] == CamelAt(t, i - 1);
          assert t[i - 1] == s[i];
          if i > 1 { assert t[i - 2] == s[i - 1]; }
        }
      }
    }
  }

  /** `c` is the letter `orig`, possibly uppercased. */
  predicate SameLetter(c: char, orig: char) {
    c == orig || (IsLower(orig) && c == ToUpper(orig))
  }

  /** Filtering two strings that agree letter for letter up to case gives such strings again. */
  lemma {:induction false} KeepLettersAlike(a: string, b: string)
    requires |a| == |b|
    requires forall i :: 0 <= i < |a| ==> (IsLetter(a[i]) <==> IsLetter(b[i])) && SameLetter(a[i], b[i])
    ensures |KeepLetters(a)| == |KeepLetters(b)|
    ensures forall k :: 0 <= k < |KeepLetters(a)| ==> SameLetter(KeepLetters(a)[k], KeepLetters(b)[k])
  {
    if a != [] {
      assert forall i :: 0 <= i < |a[1..]| ==> a[1..][i] == a[i + 1] && b[1..][i] == b[i + 1];
      KeepLettersAlike(a[1..], b[1..]);
    }
  }

  /**
   * `snakeToCamel` keeps exactly the input's ASCII letters, in order, each
   * unchanged or (a lower-case letter) uppercased; nothing else survives.
   */
  lemma SnakeToCamelKeepsLetters(s: string)
    ensures forall k :: 0 <= k < |SnakeToCamel(s)| ==> IsLetter(SnakeToCamel(s)[k])
    ensures |SnakeToCamel(s)| == |KeepLetters(s)|
    ensures forall k :: 0 <= k < |SnakeToCamel(s)| ==> SameLetter(SnakeToCamel(s)[k], KeepLetters(s)[k])
  {
    var u := UpperAfterSeparator(s);
    UpperAfterSeparatorAt(s);
    forall i | 0 <= i < |u| ensures (IsLetter(u[i]) <==> IsLetter(s[i])) && SameLetter(u[i], s[i]) {
      assert u[i] == CamelAt(s, i);
    }
    KeepLettersAlike(u, s);
  }

  /** Filtering letters commutes with the pointwise first pass, which fixes the whole result. */
  lemma SnakeToCamelPointwise(s: string)
    ensures SnakeToCamel(s) == KeepLetters(seq(|s|, i requires 0 <= i < |s| => CamelAt(s, i)))
  {
    UpperAfterSeparatorAt(s);
    assert UpperAfterSeparator(s) == seq(|s|, i requires 0 <= i < |s| => CamelAt(s, i));
  }

  /** A string of letters only passes both passes unchanged. */
  lemma {:induction false} LettersUnchanged(s: string)
    requires forall k :: 0 <= k < |s| ==> IsLetter(s[k])
    ensures UpperAfterSeparator(s) == s
    ensures KeepLetters(s) == s
  {
    if s != [] {
      assert forall k :: 0 <= k < |s[1..]| ==> s[1..][k] == s[k + 1];
      LettersUnchanged(s[1..]);
      assert [s[0]] + s[1..] == s;
    }
  }

  /** `snakeToCamel` is idempotent: a handler name is already camel case. */
  lemma SnakeToCamelIdempotent(s: string)
    ensures SnakeToCamel(SnakeToCamel(s)) == SnakeToCamel(s)
  {
    LettersUnchanged(SnakeToCamel(s));
  }

  /** Neither pass looks across a boundary that follows a letter: both distribute over it. */
  lemma {:induction false} PassesSplitAfterLetter(a: string, b: string)
    requires |a| > 0 && IsLetter(a[|a| - 1])
    ensures UpperAfterSeparator(a + b) == UpperAfterSeparator(a) + UpperAfterSeparator(b)
  {
    var s := a + b;
    UpperAfterSeparatorAt(s);
    UpperAfterSeparatorAt(a);
    UpperAfterSeparatorAt(b);
    var r := UpperAfterSeparator(a) + UpperAfterSeparator(b);
    forall i | 0 <= i < |s| ensures UpperAfterSeparator(s)[i] == r[i] {
      if i < |a| {
        assert s[i] == a[i];
        if i > 0 { assert s[i - 1] == a[i - 1]; }
      } else {
        assert s[i] == b[i - |a|];
        if i > |a| { assert s[i - 1] == b[i - |a| - 1]; }
      }
    }
  }

  lemma {:induction false} KeepLettersAppend(a: string, b: string)
    ensures KeepLetters(a + b) == KeepLetters(a) + KeepLetters(b)
  {
    if a == [] {
      assert a + b == b;
    } else {
      assert (a + b)[0] == a[0];
      assert (a + b)[1..] == a[1..] + b;
      KeepLettersAppend(a[1..], b);
    }
  }

  /** A separator followed by a word: the first pass uppercases the word's first letter only. */
  lemma SeparatorThenWord(sep: char, word: string)
    requires IsSeparator(sep)
    requires |word| > 0 && IsLower(word[0]) && forall k :: 0 <= k < |word| ==> IsLetter(word[k])
    ensures UpperAfterSeparator([sep] + word) == [sep, ToUpper(word[0])] + word[1..]
  {
    var t := [sep] + word;
    assert t[0] == sep && t[1] == word[0];
    assert t[2..] == word[1..];
    assert forall k :: 0 <= k < |word[1..]| ==> word[1..][k] == word[k + 1];
    LettersUnchanged(word[1..]);
  }

  /** The second pass drops a leading separator and keeps the word of letters after it. */
  lemma DropSeparator(sep: char, word: string)
    requires IsSeparator(sep)
    requires forall k :: 0 <= k < |word| ==> IsLetter(word[k])
    ensures KeepLetters([sep] + word) == word
  {
    assert ([sep] + word)[1..] == word;
    LettersUnchanged(word);
  }

  /** The first pass leaves a word of letters as it is and carries on after it. */
  lemma UpperAfterWord(first: string, rest: string)
    requires |first| > 0 && forall k :: 0 <= k < |first| ==> IsLetter(first[k])
    ensures UpperAfterSeparator(first + rest) == first + UpperAfterSeparator(rest)
  {
    PassesSplitAfterLetter(first, rest);
    LettersUnchanged(first);
  }

  /** The second pass keeps a word of letters and carries on after it. */
  lemma KeepWord(first: string, rest: string)
    requires forall k :: 0 <= k < |first| ==> IsLetter(first[k])
    ensures KeepLetters(first + rest) == first + KeepLetters(rest)
  {
    KeepLettersAppend(first, rest);
    LettersUnchanged(first);
  }

  /** Two words joined by one separator: the second word's first letter is uppercased, the separator dropped. */
  lemma TwoWords(first: string, sep: char, second: string)
    requires |first| > 0 && forall k :: 0 <= k < |first| ==> IsLetter(first[k])
    requires IsSeparator(sep)
    requires |second| > 0 && IsLower(second[0]) && forall k :: 0 <= k < |second| ==> IsLetter(second[k])
    ensures SnakeToCamel(first + [sep] + second) == first + [ToUpper(second[0])] + second[1..]
  {
    var tail := [sep] + second;
    var word := [ToUpper(second[0])] + second[1..];
    calc {
      SnakeToCamel(first + [sep] + second);
      { assert first + [sep] + second == first + tail; }
      KeepLetters(UpperAfterSeparator(first + tail));
      { UpperAfterWord(first, tail); }
      KeepLetters(first + UpperAfterSeparator(tail));
      { SeparatorThenWord(sep, second);
        assert [sep, ToUpper(second[0])] + second[1..] == [sep] + word; }
      KeepLetters(first + ([sep] + word));
      { KeepWord(first, [sep] + word); }
      first + KeepLetters([sep] + word);
      { assert forall k :: 1 <= k < |word| ==> word[k] == second[k];
        DropSeparator(sep, word); }
      first + word;
    }
    assert first + word == first + [ToUpper(second[0])] + second[1..];
  }

  /** The handler bound to the `announcement-channel` subcommand of the config command. */
  lemma AnnouncementChannelExample()
    ensures SnakeToCamel("announcement-channel") == "announcementChannel"
  {
    var first, second := "announcement", "channel";
    TwoWords(first, '-', second);
    assert first + ['-'] + second == "announcement-channel";
    assert ToUpper(second[0]) == 'C';
    assert second[1..] == "hannel";
    assert first + ['C'] + "hannel" == "announcementChannel";
  }

  /** `Mapps | string`: a subcommand given by name, or by name with preconditions. */
  datatype Subcommand<P> =
    | Named(name: string)
    | Guarded(name: string, preconditions: seq<P>)

  /** An entry of a `SubcommandMappingArray`. */
  datatype Mapping<P> = Mapping(name: string, chatInputRun: string, preconditions: Option<seq<P>>)

  /** `createSubcommandMappings`: one entry per subcommand, in the same order. */
  function CreateSubcommandMappings<P>(subcommands: seq<Subcommand<P>>): (r: seq<Mapping<P>>)
    ensures |r| == |subcommands|
    ensures forall i :: 0 <= i < |r| ==>
              && r[i].name == subcommands[i].name
              && r[i].chatInputRun == SnakeToCamel(subcommands[i].name)
              && (r[i].preconditions.Some? <==> subcommands[i].Guarded?)
              && (subcommands[i].Guarded? ==> r[i].preconditions.value == subcommands[i].preconditions)
  {
    if subcommands == [] then []
    else
      var s := subcommands[0];
      var entry := match s
        case Named(name) => Mapping(name, SnakeToCamel(name), None)
        case Guarded(name, preconditions) => Mapping(name, SnakeToCamel(name), Some(preconditions));
      [entry] + CreateSubcommandMappings(subcommands[1..])
  }

  /** Mapping a list in two parts maps each part: the order of subcommands is kept. */
  lemma {:induction false} CreateSubcommandMappingsAppend<P>(a: seq<Subcommand<P>>, b: seq<Subcommand<P>>)
    ensures CreateSubcommandMappings(a + b) == CreateSubcommandMappings(a) + CreateSubcommandMappings(b)
  {
    if a == [] {
      assert a + b == b;
    } else {
      assert (a + b)[0] == a[0];
      assert (a + b)[1..] == a[1..] + b;
      CreateSubcommandMappingsAppend(a[1..], b);
    }
  }

  /** Every handler name is camel case already: `snakeToCamel` leaves it as it is. */
  lemma HandlersAreCamelCase<P>(subcommands: seq<Subcommand<P>>)
    ensures forall i :: 0 <= i < |subcommands| ==>
              SnakeToCamel(CreateSubcommandMappings(subcommands)[i].chatInputRun)
              == CreateSubcommandMappings(subcommands)[i].chatInputRun
  {
    forall i | 0 <= i < |subcommands| {
      SnakeToCamelIdempotent(subcommands[i].name);
    }
  }
}
