/**
 * `cm_spliter`: splits a commit message into a summary (its first paragraph) and a description
 * (the other paragraphs joined with `"<.> "`). The message is rendered as Markdown and the text
 * of every `<p>` element taken; that rendering is foreign code, so the model starts from its
 * result: the paragraph texts, or `None` when rendering raised.
 */
module MessageSplitter {
  import opened Common
  import opened Text

  /** The literal that joins the description's paragraphs. */
  const Separator := "<.> "

  /** `(summary, description)`; `(None, None)` signals a message that could not be split. */
  datatype SplitMessage = SplitMessage(summary: Option<string>, description: Option<string>)

  /** `[p.text.strip() for p in soup.find_all('p')]` */
  function Paragraphs(texts: seq<string>): (lines: seq<string>)
    ensures |lines| == |texts|
    ensures forall i :: 0 <= i < |lines| ==> lines[i] == [] || (!IsSpace(lines[i][0]) && !IsSpace(lines[i][|lines[i]| - 1]))
  {
    var lines := seq(|texts|, i requires 0 <= i < |texts| => Strip(texts[i]));
    assert forall i :: 0 <= i < |lines| ==> lines[i] == [] || (!IsSpace(lines[i][0]) && !IsSpace(lines[i][|lines[i]| - 1])) by {
      forall i | 0 <= i < |lines| {
        StripSpec(texts[i]);
      }
    }
    lines
  }

  /**
   * `cm_spliter(message)`, given what rendering produced. Never raises: no paragraph (the
   * `IndexError` of `lines[0]`) or a failed rendering gives `(None, None)`.
   */
  function CmSplitter(rendered: Option<seq<string>>): (r: SplitMessage)
    ensures r.summary.None? <==> r.description.None?
    ensures r.summary.None? <==> rendered.None? || |rendered.value| == 0
    ensures r.summary.Some? ==> r.summary.value == Strip(rendered.value[0])
    ensures r.summary.Some? ==> r.summary.value == [] || !IsSpace(r.summary.value[0])
    ensures r.summary.Some? && |rendered.value| == 1 ==> r.description == Some("")
    ensures r.summary.Some? && |rendered.value| == 2 ==> r.description == Some(Strip(rendered.value[1]))
  {
    match rendered
    case None => SplitMessage(None, None)
    case Some(texts) =>
      if |texts| == 0 then SplitMessage(None, None)
      else
        var lines := Paragraphs(texts);
        StripSpec(texts[0]);
        SplitMessage(Some(lines[0]), Some(Join(Separator, lines[1..])))
  }

  /**
   * Summary and description together hold the whole message: joining all paragraphs gives the
   * summary, then (when there is more than one paragraph) the separator and the description.
   */
  lemma SplitReassembles(texts: seq<string>)
    requires |texts| > 0
    ensures var r := CmSplitter(Some(texts));
            Join(Separator, Paragraphs(texts))
            == r.summary.value + (if |texts| > 1 then Separator + r.description.value else "")
  {
  }

  /** The length of a join: every part, plus one separator between each two neighbours. */
  function TotalLength(parts: seq<string>): nat {
    if |parts| == 0 then 0 else |parts[0]| + TotalLength(parts[1..])
  }

  lemma {:induction false} JoinLength(sep: string, parts: seq<string>)
    requires |parts| > 0
    ensures |Join(sep, parts)| == TotalLength(parts) + |sep| * (|parts| - 1)
  {
    if |parts| > 1 {
      JoinLength(sep, parts[1..]);
    }
  }

  /** The description of a message with n >= 2 paragraphs is their texts plus n - 2 separators. */
  lemma DescriptionLength(texts: seq<string>)
    requires |texts| >= 2
    ensures |CmSplitter(Some(texts)).description.value| == TotalLength(Paragraphs(texts)[1..]) + |Separator| * (|texts| - 2)
  {
    JoinLength(Separator, Paragraphs(texts)[1..]);
  }

  /** `"Fix bug\n\nThis fixes a crash."` renders as two paragraphs and splits into summary and description. */
  lemma TwoParagraphExample()
    ensures CmSplitter(Some(["Fix bug", "This fixes a crash."]))
            == SplitMessage(Some("Fix bug"), Some("This fixes a crash."))
  {
    var summary, body := "Fix bug", "This fixes a crash.";
    StripTrimmed(summary);
    StripTrimmed(body);
    var lines := Paragraphs([summary, body]);
    assert lines[0] == summary && lines[1..] == [body];
  }

  /** The empty message has no paragraph: `(None, None)`. */
  lemma EmptyMessage()
    ensures CmSplitter(Some([])) == SplitMessage(None, None)
  {
  }
}
