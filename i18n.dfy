/** The template rewriting of the `i18n` management command
    (apps/accounts/management/commands/i18n.py): the language-name table,
    the insertion of the i18n load tag, and the control flow of the string
    wrapping. Each regular-expression rewrite is a parameter: a function from
    the text before it to the text after it. */
module I18n {
  import opened Common
  import opened PyStr

  /** The names get_language_name knows. */
  const LanguageNames: map<string, string> := map[
    "fa" := "Persian", "ar" := "Arabic", "fr" := "French", "de" := "German",
    "es" := "Spanish", "it" := "Italian", "pt" := "Portuguese", "ru" := "Russian",
    "zh" := "Chinese", "ja" := "Japanese", "ko" := "Korean", "hi" := "Hindi"]

  /** get_language_name: the table's name for a known code, and the code in
      upper case otherwise. */
  function GetLanguageName(code: string): (name: string)
    ensures code in LanguageNames ==> name == LanguageNames[code]
    ensures code !in LanguageNames ==> |name| == |code| && forall i :: 0 <= i < |code| ==> name[i] == UpperChar(code[i])
  {
    if code in LanguageNames then LanguageNames[code] else Upper(code)
  }

  /** No ASCII lower-case letter is left in an upper-cased string. */
  predicate NoLowerLetters(s: string) {
    forall i :: 0 <= i < |s| ==> !('a' <= s[i] <= 'z')
  }

  /** Every known code holds a lower-case letter. */
  lemma KnownCodesAreLowerCase(code: string)
    requires code in LanguageNames
    ensures !NoLowerLetters(code)
  {
    assert |code| == 2 && 'a' <= code[0] <= 'z';
  }

  /** The fallback name of an unknown code is itself unknown, so looking it
      up again gives it back. */
  lemma FallbackNameIsStable(code: string)
    requires code !in LanguageNames
    ensures GetLanguageName(code) !in LanguageNames
    ensures GetLanguageName(GetLanguageName(code)) == GetLanguageName(code)
  {
    var name := GetLanguageName(code);
    assert NoLowerLetters(name);
    if name in LanguageNames {
      KnownCodesAreLowerCase(name);
    }
    assert GetLanguageName(name) == Upper(name);
    assert Upper(name) == name;
  }

  /** The tag the command inserts, and the markers it looks for. */
  const LoadTag := "{% load i18n %}"
  const ExtendsMarker := "{% extends"
  const LoadMarker := "{% load"

  /** How many leading lines are searched for an existing load tag. */
  const LoadTagWindow := 10

  /** Some line among the first `n` contains the load tag. */
  predicate LoadTagAmong(lines: seq<string>, n: nat)
    requires n <= |lines|
  {
    n > 0 && (LoadTagAmong(lines, n - 1) || Contains(lines[n - 1], LoadTag))
  }

  /** `any('{% load i18n %}' in line for line in lines[:10])` */
  predicate HasI18nLoad(lines: seq<string>) {
    LoadTagAmong(lines, if |lines| < LoadTagWindow then |lines| else LoadTagWindow)
  }

  /** A load tag on line `k` is found by a search of any `n` lines past it. */
  lemma {:induction false} LoadTagFound(lines: seq<string>, n: nat, k: nat)
    requires k < n <= |lines| && Contains(lines[k], LoadTag)
    ensures LoadTagAmong(lines, n)
  {
    if k < n - 1 {
      LoadTagFound(lines, n - 1, k);
    }
  }

  /** What the extends branch emits for line `i`: the line, followed by a
      load tag when the line extends a template and the next line exists and
      loads nothing. */
  function LinesFor(lines: seq<string>, i: nat): seq<string>
    requires i < |lines|
  {
    if Contains(lines[i], ExtendsMarker) && i + 1 < |lines| && !Contains(lines[i + 1], LoadMarker)
    then [lines[i], LoadTag]
    else [lines[i]]
  }

  /** What the extends branch has emitted after the first `n` lines. */
  function InsertedUpTo(lines: seq<string>, n: nat): (r: seq<string>)
    requires n <= |lines|
    ensures n <= |r| <= 2 * n
  {
    if n == 0 then [] else InsertedUpTo(lines, n - 1) + LinesFor(lines, n - 1)
  }

  /** The line list process_template_content hands to the wrapping step: the
      lines themselves when the load tag is among the first ten, and
      otherwise the lines with load tags added, one in front or at most one
      after each line. */
  function ProcessLines(lines: seq<string>): (r: seq<string>)
    ensures HasI18nLoad(lines) ==> r == lines
    ensures |lines| <= |r| <= 2 * |lines| + 1
  {
    if HasI18nLoad(lines) then lines
    else if |lines| > 0 && Contains(lines[0], ExtendsMarker) then InsertedUpTo(lines, |lines|)
    else [LoadTag] + lines
  }

  /** The line-building part of process_template_content, with the loop of
      the extends branch. */
  method BuildProcessedLines(lines: seq<string>) returns (processedLines: seq<string>)
    ensures processedLines == ProcessLines(lines)
  {
    var hasI18nLoad := HasI18nLoad(lines);
    processedLines := [];
    if |lines| > 0 && Contains(lines[0], ExtendsMarker) {
      if !hasI18nLoad {
        var i := 0;
        while i < |lines|
          invariant 0 <= i <= |lines|
          invariant processedLines == InsertedUpTo(lines, i)
        {
          processedLines := processedLines + [lines[i]];
          if Contains(lines[i], ExtendsMarker) && i + 1 < |lines| && !Contains(lines[i + 1], LoadMarker) {
            processedLines := processedLines + [LoadTag];
          }
          i := i + 1;
        }
      } else {
        processedLines := lines;
      }
    } else {
      if !hasI18nLoad {
        processedLines := [LoadTag] + lines;
      } else {
        processedLines := lines;
      }
    }
  }

  /** A template already loading i18n in its first ten lines keeps its lines. */
  lemma LoadedTemplateKeepsLines(lines: seq<string>, k: nat)
    requires k < |lines| && k < LoadTagWindow && Contains(lines[k], LoadTag)
    ensures ProcessLines(lines) == lines
  {
    LoadTagFound(lines, if |lines| < LoadTagWindow then |lines| else LoadTagWindow, k);
  }

  /** A template that neither extends on its first line nor loads i18n gets
      the load tag as its new first line. */
  lemma StandaloneTemplateGetsLoadTag(lines: seq<string>)
    requires !HasI18nLoad(lines)
    requires |lines| == 0 || !Contains(lines[0], ExtendsMarker)
    ensures ProcessLines(lines) == [LoadTag] + lines
  {
  }

  /** A one-line template is never given a tag after its extends line: the
      line has no next line. */
  lemma OneLineExtendsGetsNoTag(line: string)
    requires Contains(line, ExtendsMarker)
    ensures ProcessLines([line]) == [line]
  {
    assert InsertedUpTo([line], 1) == InsertedUpTo([line], 0) + LinesFor([line], 0);
  }

  /** A template that extends on its first line, loads no i18n, and follows
      every extends line with a `{% load` line (say `{% load static %}`)
      gets no load tag at all, though its strings are wrapped later. */
  lemma ExtendsBeforeOtherLoadGetsNoTag(lines: seq<string>)
    requires !HasI18nLoad(lines) && |lines| > 0 && Contains(lines[0], ExtendsMarker)
    requires forall i :: 0 <= i < |lines| - 1 && Contains(lines[i], ExtendsMarker) ==> Contains(lines[i + 1], LoadMarker)
    ensures ProcessLines(lines) == lines
  {
    NothingInserted(lines, |lines|);
    assert lines[..|lines|] == lines;
  }

  /** Under that condition the extends branch emits each line alone. */
  lemma {:induction false} NothingInserted(lines: seq<string>, n: nat)
    requires n <= |lines|
    requires forall i :: 0 <= i < |lines| - 1 && Contains(lines[i], ExtendsMarker) ==> Contains(lines[i + 1], LoadMarker)
    ensures InsertedUpTo(lines, n) == lines[..n]
  {
    if n > 0 {
      NothingInserted(lines, n - 1);
      assert LinesFor(lines, n - 1) == [lines[n - 1]];
      assert lines[..n] == lines[..n - 1] + [lines[n - 1]];
    }
  }

  /** `pos` places each line of `a` in `b`, in order. */
  ghost predicate Embeds(a: seq<string>, b: seq<string>, pos: seq<int>) {
    |pos| == |a|
    && (forall i :: 0 <= i < |a| ==> 0 <= pos[i] < |b| && b[pos[i]] == a[i])
    && (forall i, j :: 0 <= i < j < |a| ==> pos[i] < pos[j])
  }

  ghost predicate Subsequence(a: seq<string>, b: seq<string>) {
    exists pos :: Embeds(a, b, pos)
  }

  /** Where the extends branch puts each of the first `n` lines. */
  ghost function Positions(lines: seq<string>, n: nat): seq<int>
    requires n <= |lines|
  {
    if n == 0 then [] else Positions(lines, n - 1) + [|InsertedUpTo(lines, n - 1)|]
  }

  lemma {:induction false} InsertedEmbedsLines(lines: seq<string>, n: nat)
    requires n <= |lines|
    ensures Embeds(lines[..n], InsertedUpTo(lines, n), Positions(lines, n))
  {
    if n > 0 {
      InsertedEmbedsLines(lines, n - 1);
      var before := InsertedUpTo(lines, n - 1);
      var after := InsertedUpTo(lines, n);
      var pos := Positions(lines, n - 1);
      assert after == before + LinesFor(lines, n - 1);
      assert after[|before|] == lines[n - 1];
      assert lines[..n] == lines[..n - 1] + [lines[n - 1]];
      forall i | 0 <= i < n - 1
        ensures after[pos[i]] == lines[..n][i]
      {
        assert pos[i] < |before|;
        assert after[pos[i]] == before[pos[i]];
      }
    }
  }

  /** The extends branch adds nothing but load tags. */
  lemma {:induction false} InsertedAddsOnlyLoadTags(lines: seq<string>, n: nat)
    requires n <= |lines|
    ensures forall x :: x in InsertedUpTo(lines, n) ==> x in lines || x == LoadTag
  {
    if n > 0 {
      InsertedAddsOnlyLoadTags(lines, n - 1);
      var before := InsertedUpTo(lines, n - 1);
      var tail := LinesFor(lines, n - 1);
      assert InsertedUpTo(lines, n) == before + tail;
      assert forall x :: x in tail ==> x == lines[n - 1] || x == LoadTag;
    }
  }

  /** Load-tag insertion deletes and reorders nothing: the original lines
      are an in-order subsequence of the result, and every other line of the
      result is the load tag. */
  lemma ProcessLinesKeepsLines(lines: seq<string>)
    ensures Subsequence(lines, ProcessLines(lines))
    ensures forall x :: x in ProcessLines(lines) ==> x in lines || x == LoadTag
  {
    var tag := LoadTag;
    var out := ProcessLines(lines);
    if HasI18nLoad(lines) {
      assert out == [] + lines;
      PrefixedLinesKept(lines, [], tag, out);
    } else if |lines| > 0 && Contains(lines[0], ExtendsMarker) {
      assert out == InsertedUpTo(lines, |lines|);
      InsertedEmbedsLines(lines, |lines|);
      InsertedAddsOnlyLoadTags(lines, |lines|);
      assert lines[..|lines|] == lines;
      assert Embeds(lines, out, Positions(lines, |lines|));
    } else {
      assert out == [tag] + lines;
      PrefixedLinesKept(lines, [tag], tag, out);
    }
  }

  /** Lines placed after a prefix of tags keep their order. */
  lemma PrefixedLinesKept(lines: seq<string>, prefix: seq<string>, tag: string, out: seq<string>)
    requires forall x :: x in prefix ==> x == tag
    requires out == prefix + lines
    ensures Subsequence(lines, out)
    ensures forall x :: x in out ==> x in lines || x == tag
  {
    var pos := seq(|lines|, i requires 0 <= i < |lines| => |prefix| + i);
    assert Embeds(lines, out, pos);
  }

  /** The text and the changes_made flag during the wrapping loop. */
  datatype Wrapping = Wrapping(content: string, changesMade: bool)

  /** One regular pattern: its result replaces the text, and the flag is
      set when the text changed. */
  function RegularPass(w: Wrapping, pass: string -> string): (r: Wrapping)
    ensures r.content == pass(w.content)
    ensures r.changesMade <==> w.changesMade || pass(w.content) != w.content
  {
    var newContent := pass(w.content);
    if newContent != w.content then Wrapping(newContent, true) else w
  }

  /** The regular patterns in order. */
  function RegularPasses(w: Wrapping, passes: seq<string -> string>): Wrapping {
    if passes == [] then w else RegularPass(RegularPasses(w, passes[..|passes| - 1]), passes[|passes| - 1])
  }

  /** One round: the regular patterns, then the modal pattern, whose
      substitution replaces the text without touching the flag. */
  function Round(w: Wrapping, passes: seq<string -> string>, modal: string -> string): Wrapping {
    var afterRegular := RegularPasses(w, passes);
    afterRegular.(content := modal(afterRegular.content))
  }

  function Rounds(w: Wrapping, passes: seq<string -> string>, modal: string -> string, n: nat): Wrapping {
    if n == 0 then w else Round(Rounds(w, passes, modal, n - 1), passes, modal)
  }

  /** The number of rounds the command makes. */
  const RoundCount := 3

  /** A stretch of text as the trans-tag pattern of handle_template_variables
      divides it: plain text, or one `{% trans "…" %}` tag with its quoted
      text and the pieces `re.split` cuts that text into. */
  datatype Segment = Plain(text: string) | TransTag(whole: string, text: string, parts: seq<string>)

  /** The text the segments were cut from. */
  function Original(segments: seq<Segment>): string {
    if segments == [] then []
    else
      var last := segments[|segments| - 1];
      Original(segments[..|segments| - 1]) + (if last.Plain? then last.text else last.whole)
  }

  /** `'{{' in text and '}}' in text` */
  predicate HasTemplateVariable(text: string) {
    Contains(text, "{{") && Contains(text, "}}")
  }

  /** A piece of a blocktrans body: a `{{ name }}` piece becomes `{name}`
      (the f-string's doubled braces give single ones), other text is
      stripped, and blank pieces vanish. */
  function BlockPiece(part: string): string {
    var s := Strip(part);
    if StartsWith(s, "{{") && |s| >= 4 && s[|s| - 2..] == "}}" then "{" + Strip(s[2..|s| - 2]) + "}"
    else s
  }

  function BlockBody(parts: seq<string>): string {
    if parts == [] then [] else BlockBody(parts[..|parts| - 1]) + BlockPiece(parts[|parts| - 1])
  }

  const BlockOpen := "{% blocktrans %}"
  const BlockClose := "{% endblocktrans %}"

  /** The blocktrans tag built from the pieces of a tag's text. */
  function BlockTrans(parts: seq<string>): (r: string)
    ensures StartsWith(r, BlockOpen) && |r| >= |BlockClose| && r[|r| - |BlockClose|..] == BlockClose
  {
    Bracketed(BlockOpen, BlockBody(parts), BlockClose)
  }

  function Bracketed(open: string, body: string, close: string): (r: string)
    ensures StartsWith(r, open) && |r| >= |close| && r[|r| - |close|..] == close
  {
    var r := open + body + close;
    assert r[..|open|] == open;
    assert r[|r| - |close|..] == close;
    r
  }

  /** fix_trans_tags: a tag whose text has a template variable becomes a
      blocktrans tag; any other match is returned as it was. */
  function FixTransTag(s: Segment): (r: string)
    ensures s.Plain? ==> r == s.text
    ensures s.TransTag? && !HasTemplateVariable(s.text) ==> r == s.whole
    ensures s.TransTag? && HasTemplateVariable(s.text) ==> r == BlockTrans(s.parts)
  {
    if s.Plain? then s.text
    else if HasTemplateVariable(s.text) then BlockTrans(s.parts)
    else s.whole
  }

  /** No trans tag among the segments mentions a template variable. */
  predicate NoVariableTags(segments: seq<Segment>) {
    forall k :: 0 <= k < |segments| && segments[k].TransTag? ==> !HasTemplateVariable(segments[k].text)
  }

  /** handle_template_variables over the segments of its input: each match is
      replaced by what fix_trans_tags makes of it, so text without a trans
      tag that mentions a template variable comes back as it was. */
  function HandleTemplateVariables(segments: seq<Segment>): (r: string)
    ensures NoVariableTags(segments) ==> r == Original(segments)
  {
    if segments == [] then []
    else
      var init := segments[..|segments| - 1];
      assert NoVariableTags(segments) ==> NoVariableTags(init) by {
        if NoVariableTags(segments) {
          forall k | 0 <= k < |init| && init[k].TransTag?
            ensures !HasTemplateVariable(init[k].text)
          {
            assert init[k] == segments[k];
          }
        }
      }
      HandleTemplateVariables(init) + FixTransTag(segments[|segments| - 1])
  }

  /** The pattern passes of wrap_translatable_strings: the regular patterns
      in order, the modal pattern, and the trans-tag scanner of
      handle_template_variables. */
  datatype Patterns = Patterns(regular: seq<string -> string>, modal: string -> string, scan: string -> seq<Segment>)

  /** The text after the three rounds and the template-variable pass, and
      whether a regular pattern changed anything. */
  function WrapFinal(content: string, ps: Patterns): Wrapping {
    var w := Rounds(Wrapping(content, false), ps.regular, ps.modal, RoundCount);
    w.(content := HandleTemplateVariables(ps.scan(w.content)))
  }

  /** wrap_translatable_strings: the final text when a regular pattern
      changed something or the text loads i18n; the input otherwise. */
  function WrapTranslatable(content: string, ps: Patterns): (r: string)
    ensures r == content || r == WrapFinal(content, ps).content
    ensures !WrapFinal(content, ps).changesMade && !Contains(WrapFinal(content, ps).content, LoadTag) ==> r == content
    ensures WrapFinal(content, ps).changesMade || Contains(WrapFinal(content, ps).content, LoadTag) ==>
              r == WrapFinal(content, ps).content
  {
    var w := WrapFinal(content, ps);
    if w.changesMade || Contains(w.content, LoadTag) then w.content else content
  }

  /** wrap_translatable_strings with its loops: three rounds over the
      pattern list, the modal pattern last in each round. */
  method WrapStrings(content: string, ps: Patterns) returns (r: string)
    ensures r == WrapTranslatable(content, ps)
  {
    var originalContent := content;
    var current := content;
    var changesMade := false;
    var round := 0;
    while round < RoundCount
      invariant 0 <= round <= RoundCount
      invariant Wrapping(current, changesMade) == Rounds(Wrapping(content, false), ps.regular, ps.modal, round)
    {
      ghost var roundStart := Wrapping(current, changesMade);
      var k := 0;
      while k < |ps.regular|
        invariant 0 <= k <= |ps.regular|
        invariant Wrapping(current, changesMade) == RegularPasses(roundStart, ps.regular[..k])
      {
        assert ps.regular[..k + 1][..k] == ps.regular[..k];
        var newContent := ps.regular[k](current);
        if newContent != current {
          changesMade := true;
          current := newContent;
        }
        k := k + 1;
      }
      assert ps.regular[..k] == ps.regular;
      current := ps.modal(current);
      round := round + 1;
    }
    current := HandleTemplateVariables(ps.scan(current));
    if changesMade || Contains(current, LoadTag) {
      r := current;
    } else {
      r := originalContent;
    }
  }

  /** Regular patterns that change nothing never set the flag, whatever the
      modal pattern does. */
  lemma {:induction false} IdlePassesKeepFlag(w: Wrapping, passes: seq<string -> string>, modal: string -> string, n: nat)
    requires forall k, c :: 0 <= k < |passes| ==> passes[k](c) == c
    ensures Rounds(w, passes, modal, n).changesMade == w.changesMade
  {
    if n > 0 {
      IdlePassesKeepFlag(w, passes, modal, n - 1);
      IdleRegularPasses(Rounds(w, passes, modal, n - 1), passes);
    }
  }

  lemma {:induction false} IdleRegularPasses(w: Wrapping, passes: seq<string -> string>)
    requires forall k, c :: 0 <= k < |passes| ==> passes[k](c) == c
    ensures RegularPasses(w, passes) == w
  {
    if passes != [] {
      var prefix := passes[..|passes| - 1];
      assert forall k, c :: 0 <= k < |prefix| ==> prefix[k](c) == c by {
        forall k, c | 0 <= k < |prefix| ensures prefix[k](c) == c {
          assert prefix[k] == passes[k];
        }
      }
      IdleRegularPasses(w, prefix);
    }
  }

  /** When no regular pattern changes anything, whatever the modal pattern
      and the template-variable pass did is thrown away unless the result
      loads i18n. */
  lemma ModalChangesAloneDiscarded(content: string, ps: Patterns)
    requires forall k, c :: 0 <= k < |ps.regular| ==> ps.regular[k](c) == c
    requires !Contains(WrapFinal(content, ps).content, LoadTag)
    ensures WrapTranslatable(content, ps) == content
  {
    IdlePassesKeepFlag(Wrapping(content, false), ps.regular, ps.modal, RoundCount);
  }

  /** process_template_content: the lines with the load tag handled,
      joined again, then wrapped. */
  function ProcessTemplateContent(content: string, ps: Patterns): string {
    WrapTranslatable(Join(ProcessLines(Split(content, '\n')), '\n'), ps)
  }

  method ProcessTemplate(content: string, ps: Patterns) returns (r: string)
    ensures r == ProcessTemplateContent(content, ps)
  {
    var lines := Split(content, '\n');
    var processedLines := BuildProcessedLines(lines);
    r := WrapStrings(Join(processedLines, '\n'), ps);
  }

  /** With patterns that rewrite nothing, a template that already loads
      i18n in its first ten lines comes back unchanged. */
  lemma LoadedTemplateUnchanged(content: string, ps: Patterns)
    requires HasI18nLoad(Split(content, '\n'))
    requires forall k, c :: 0 <= k < |ps.regular| ==> ps.regular[k](c) == c
    requires forall c :: ps.modal(c) == c
    requires Original(ps.scan(content)) == content && NoVariableTags(ps.scan(content))
    ensures ProcessTemplateContent(content, ps) == content
  {
    JoinSplit(content, '\n');
    IdleRoundsKeepContent(Wrapping(content, false), ps.regular, ps.modal, RoundCount);
  }

  lemma {:induction false} IdleRoundsKeepContent(w: Wrapping, passes: seq<string -> string>, modal: string -> string, n: nat)
    requires forall k, c :: 0 <= k < |passes| ==> passes[k](c) == c
    requires forall c :: modal(c) == c
    ensures Rounds(w, passes, modal, n) == w
  {
    if n > 0 {
      IdleRoundsKeepContent(w, passes, modal, n - 1);
      IdleRegularPasses(w, passes);
    }
  }
}
