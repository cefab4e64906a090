/**
 * The string builders of czkawka_gui/src/help_functions.rs: the text put
 * into the errors view from a `Messages` value, the comma-separated text of
 * a one-column list store, and the label of a similarity level.
 */
module HelpFunctions {
  import Wrappers
  import opened Strings

  /** `common_messages::Messages`: the three lists a scan reports. */
  datatype Messages = Messages(messages: seq<string>, warnings: seq<string>, errors: seq<string>)

  /** The fifteen hashes on each side of a banner. */
  const Hashes: string := "###############"

  /** The banner lines, without their line break. */
  const MessagesTitle: string := Hashes + " MESSAGES " + Hashes
  const WarningsTitle: string := Hashes + " WARNINGS " + Hashes
  const ErrorsTitle: string := Hashes + " ERRORS " + Hashes

  /** The view's lines for one list: nothing for an empty list, else the banner, the entries and a blank line. */
  function SectionLines(title: string, items: seq<string>): (lines: seq<string>)
    ensures items == [] <==> lines == []
    ensures items != [] ==>
      |lines| == |items| + 2 && lines[0] == title && lines[1..|items| + 1] == items && lines[|items| + 1] == []
  {
    if items == [] then [] else [title] + items + [[]]
  }

  /** Every line of the view, in the order messages, warnings, errors. */
  function ViewLines(m: Messages): seq<string> {
    SectionLines(MessagesTitle, m.messages)
    + SectionLines(WarningsTitle, m.warnings)
    + SectionLines(ErrorsTitle, m.errors)
  }

  /** The text of the view: each of its lines followed by a line break. */
  function MessagesText(m: Messages): string {
    Terminated(ViewLines(m), "\n")
  }

  /** A non-empty section as the source assembles it: the banner line, each entry and its break, one more break. */
  lemma SectionText(title: string, items: seq<string>)
    requires items != []
    ensures Terminated(SectionLines(title, items), "\n") == title + "\n" + Terminated(items, "\n") + "\n"
  {
    TerminatedConcat([title] + items, [[]], "\n");
    TerminatedConcat([title], items, "\n");
    var blank: seq<string> := [[]];
    assert Terminated(blank, "\n") == "\n" by {
      assert blank[1..] == [];
    }
    assert Terminated([title], "\n") == title + "\n" by {
      assert [title][1..] == [];
    }
  }

  /**
   * `print_text_messages_to_text_view` (lines 129-161) without the GTK
   * buffer: for each non-empty list its banner, its entries one per line and
   * a blank line.
   */
  method PrintTextMessages(m: Messages) returns (text: string)
    ensures text == MessagesText(m)
  {
    ViewText(m);
    ghost var t1 := Terminated(SectionLines(MessagesTitle, m.messages), "\n");
    ghost var t2 := Terminated(SectionLines(WarningsTitle, m.warnings), "\n");
    ghost var t3 := Terminated(SectionLines(ErrorsTitle, m.errors), "\n");
    text := AppendSection([], MessagesTitle, m.messages);
    assert text == t1;
    text := AppendSection(text, WarningsTitle, m.warnings);
    assert text == t1 + t2;
    text := AppendSection(text, ErrorsTitle, m.errors);
  }

  /** One of the three blocks of the source: banner if non-empty, each entry and a break, a break if non-empty. */
  method AppendSection(before: string, title: string, items: seq<string>) returns (text: string)
    ensures text == before + Terminated(SectionLines(title, items), "\n")
  {
    text := before;
    if items != [] {
      text := text + title + "\n";
    }
    text := AppendTerminated(text, items, "\n");
    if items != [] {
      text := text + "\n";
      SectionText(title, items);
    }
  }

  /** The view's text is the three sections' texts one after the other. */
  lemma ViewText(m: Messages)
    ensures MessagesText(m) == Terminated(SectionLines(MessagesTitle, m.messages), "\n")
      + Terminated(SectionLines(WarningsTitle, m.warnings), "\n")
      + Terminated(SectionLines(ErrorsTitle, m.errors), "\n")
  {
    var s1 := SectionLines(MessagesTitle, m.messages);
    var s2 := SectionLines(WarningsTitle, m.warnings);
    var s3 := SectionLines(ErrorsTitle, m.errors);
    TerminatedConcat(s1 + s2, s3, "\n");
    TerminatedConcat(s1, s2, "\n");
  }

  /** The view is empty exactly when all three lists are. */
  lemma MessagesEmpty(m: Messages)
    ensures MessagesText(m) == [] <==> m.messages == [] && m.warnings == [] && m.errors == []
  {
    var lines := ViewLines(m);
    if lines != [] {
      assert |MessagesText(m)| >= |lines[0]| + 1;
    }
  }

  /**
   * The banners in order: the view begins with the first banner of a
   * non-empty list, and each list's banner line follows the lines of the
   * lists before it exactly when that list is non-empty.
   */
  lemma MessagesOrder(m: Messages)
    ensures var lines, k1 := ViewLines(m), |SectionLines(MessagesTitle, m.messages)|;
      var k2 := k1 + |SectionLines(WarningsTitle, m.warnings)|;
      && (m.messages != [] ==> lines[0] == MessagesTitle)
      && (m.messages == [] ==> k1 == 0)
      && (m.warnings != [] ==> k1 < |lines| && lines[k1] == WarningsTitle)
      && (m.warnings == [] ==> k2 == k1)
      && (m.errors != [] ==> k2 < |lines| && lines[k2] == ErrorsTitle)
      && (m.errors == [] ==> |lines| == k2)
  {
  }

  /** Each entry of a section is on its own line, in input order, after the banner; a blank line closes the section. */
  lemma SectionEntries(m: Messages, i: nat)
    requires i < |m.messages| + |m.warnings| + |m.errors|
    ensures var lines, k1 := ViewLines(m), |SectionLines(MessagesTitle, m.messages)|;
      var k2 := k1 + |SectionLines(WarningsTitle, m.warnings)|;
      && (i < |m.messages| ==> lines[1 + i] == m.messages[i] && lines[k1 - 1] == [])
      && (i < |m.warnings| ==> lines[k1 + 1 + i] == m.warnings[i] && lines[k2 - 1] == [])
      && (i < |m.errors| ==> lines[k2 + 1 + i] == m.errors[i] && lines[|lines| - 1] == [])
  {
    var s1 := SectionLines(MessagesTitle, m.messages);
    var s2 := SectionLines(WarningsTitle, m.warnings);
    var s3 := SectionLines(ErrorsTitle, m.errors);
    if i < |m.messages| {
      assert s1[1..|m.messages| + 1][i] == m.messages[i];
    }
    if i < |m.warnings| {
      assert s2[1..|m.warnings| + 1][i] == m.warnings[i];
    }
    if i < |m.errors| {
      assert s3[1..|m.errors| + 1][i] == m.errors[i];
    }
  }

  /** A section has no line break inside a line when its banner and its entries have none. */
  lemma SectionNoBreak(title: string, items: seq<string>)
    requires '\n' !in title && NoneContains(items, '\n')
    ensures NoneContains(SectionLines(title, items), '\n')
  {
    var lines := SectionLines(title, items);
    forall i | 0 <= i < |lines|
      ensures '\n' !in lines[i]
    {
      if 0 < i < |items| + 1 {
        assert lines[1..|items| + 1][i - 1] == items[i - 1];
      }
    }
  }

  /** Split at line breaks, the text gives back the view's lines (and the empty rest after the last break). */
  lemma MessagesLines(m: Messages)
    requires NoneContains(m.messages, '\n') && NoneContains(m.warnings, '\n') && NoneContains(m.errors, '\n')
    ensures Split(MessagesText(m), '\n') == ViewLines(m) + [[]]
  {
    assert '\n' !in Hashes;
    assert '\n' !in MessagesTitle && '\n' !in WarningsTitle && '\n' !in ErrorsTitle;
    var s1 := SectionLines(MessagesTitle, m.messages);
    var s2 := SectionLines(WarningsTitle, m.warnings);
    var s3 := SectionLines(ErrorsTitle, m.errors);
    SectionNoBreak(MessagesTitle, m.messages);
    SectionNoBreak(WarningsTitle, m.warnings);
    SectionNoBreak(ErrorsTitle, m.errors);
    var lines := ViewLines(m);
    assert lines == s1 + s2 + s3;
    assert NoneContains(lines, '\n') by {
      forall i | 0 <= i < |lines|
        ensures '\n' !in lines[i]
      {
        if i < |s1| {
          assert lines[i] == s1[i];
        } else if i < |s1| + |s2| {
          assert lines[i] == s2[i - |s1|];
        } else {
          assert lines[i] == s3[i - |s1| - |s2|];
        }
      }
    }
    SplitTerminated(lines, '\n');
  }

  /** A banner line is 40 characters for messages and warnings and 38 for errors, its break not counted. */
  lemma TitleLengths()
    ensures |MessagesTitle| == 40 && |WarningsTitle| == 40 && |ErrorsTitle| == 38
  {
  }

  /** The characters one section adds: banner and break, each entry and its break, the closing break. */
  function SectionLength(title: string, items: seq<string>): nat {
    if items == [] then 0 else |title| + 1 + TotalLength(items) + |items| + 1
  }

  /** The length of one section's text. */
  lemma SectionTextLength(title: string, items: seq<string>)
    ensures |Terminated(SectionLines(title, items), "\n")| == SectionLength(title, items)
  {
    var lines := SectionLines(title, items);
    TerminatedLength(lines, "\n");
    if items != [] {
      var blank: seq<string> := [[]];
      TotalLengthConcat([title] + items, blank);
      TotalLengthConcat([title], items);
      assert TotalLength(blank) == 0 by { assert blank[1..] == []; }
      assert TotalLength([title]) == |title| by { assert [title][1..] == []; }
    }
  }

  /** The length of the view: the three sections' lengths added up. */
  lemma MessagesLength(m: Messages)
    ensures |MessagesText(m)| == SectionLength(MessagesTitle, m.messages)
      + SectionLength(WarningsTitle, m.warnings) + SectionLength(ErrorsTitle, m.errors)
  {
    var s1 := SectionLines(MessagesTitle, m.messages);
    var s2 := SectionLines(WarningsTitle, m.warnings);
    var s3 := SectionLines(ErrorsTitle, m.errors);
    TerminatedConcat(s1 + s2, s3, "\n");
    TerminatedConcat(s1, s2, "\n");
    SectionTextLength(MessagesTitle, m.messages);
    SectionTextLength(WarningsTitle, m.warnings);
    SectionTextLength(ErrorsTitle, m.errors);
  }

  /**
   * `get_string_from_list_store` (lines 100-120) over the store's first
   * column: nothing for an empty store, else the values with a comma before
   * every value but the first.
   */
  method ListStoreText(values: seq<string>) returns (text: string)
    ensures text == Join(values, ',')
  {
    text := "";
    if values == [] {
      return;
    }
    var first := true;
    var i := 0;
    while true
      invariant 0 <= i < |values|
      invariant first <==> i == 0
      invariant first ==> text == []
      invariant !first ==> text == Join(values[..i], ',')
      decreases |values| - i
    {
      if !first {
        text := text + ",";
      } else {
        first := false;
      }
      text := text + values[i];
      JoinSnoc(values[..i], values[i], ',');
      assert values[..i + 1] == values[..i] + [values[i]];
      if i + 1 == |values| {
        assert values[..i + 1] == values;
        return;
      }
      i := i + 1;
    }
  }

  /** Joining one more item adds a separator (unless the list was empty) and the item. */
  lemma {:induction false} JoinSnoc(items: seq<string>, x: string, sep: char)
    ensures Join(items + [x], sep) == if items == [] then x else Join(items, sep) + [sep] + x
    decreases |items|
  {
    if items == [] {
      assert items + [x] == [x];
    } else if |items| == 1 {
      assert (items + [x])[1..] == [x];
    } else {
      JoinSnoc(items[1..], x, sep);
      assert (items + [x])[1..] == items[1..] + [x];
    }
  }

  /** `Similarity` of `similar_images`: how close a picture is to the original of its group. */
  datatype Similarity = None | VerySmall | Small | Medium | High | VeryHigh

  /** `get_text_from_similarity` (lines 221-230): the label shown for each level. */
  function SimilarityText(s: Similarity): (name: string)
    ensures s == None <==> name == "Original"
    ensures |name| > 0
  {
    match s
    case None => "Original"
    case VerySmall => "Very Small"
    case Small => "Small"
    case Medium => "Medium"
    case High => "High"
    case VeryHigh => "Very High"
  }

  /** The level a label names, if any. */
  function SimilarityOf(name: string): (s: Wrappers.Option<Similarity>) {
    if name == "Original" then Wrappers.Some(None)
    else if name == "Very Small" then Wrappers.Some(VerySmall)
    else if name == "Small" then Wrappers.Some(Small)
    else if name == "Medium" then Wrappers.Some(Medium)
    else if name == "High" then Wrappers.Some(High)
    else if name == "Very High" then Wrappers.Some(VeryHigh)
    else Wrappers.None
  }

  /** Every level's label names it back: the labels are all different. */
  lemma SimilarityRoundTrip(s: Similarity)
    ensures SimilarityOf(SimilarityText(s)) == Wrappers.Some(s)
  {
  }

  /** A label read back as a level is that level's label. */
  lemma SimilarityOfText(name: string)
    ensures SimilarityOf(name).Some? ==> SimilarityText(SimilarityOf(name).value) == name
  {
  }

  /** No two levels share a label. */
  lemma SimilarityInjective(a: Similarity, b: Similarity)
    ensures SimilarityText(a) == SimilarityText(b) ==> a == b
  {
    SimilarityRoundTrip(a);
    SimilarityRoundTrip(b);
  }
}
