/**
 What the model reads when it compacts: the summary so far and, in order, everything
 said in the rows it is fed.
 */
module CompactionContent {
  import opened Text
  import opened Messages
  import opened Json
  import opened History
  import opened Renames
  import opened UnitCuts
  import opened HistoryContent
  import opened Storage
  import opened CompactionPrompt

  /** The text holds everything the part says, but for ids and signatures; attachments have no text. */
  predicate Mentions(p: Part, text: string) {
    match p
    case TextPart(t) => Contains(text, t)
    case CallPart(c) => Contains(text, c.fnName) && Contains(text, c.fnArguments)
    case ResponsePart(o) => Contains(text, o.content)
    case Custom(json) => Contains(text, json)
    case ReasoningContent(t) => Contains(text, JsonString(t))
    case _ => true
  }

  predicate MentionsAll(m: Message, text: string) {
    forall p :: p in m.parts ==> Mentions(p, text)
  }

  lemma {:induction false} ToldIsMentioned(p: Part, q: Part, text: string)
    requires Tells(p, q) && (q.TextPart? ==> Contains(text, q.text))
    ensures Mentions(p, text)
  {
    hide Contains;
    match p
    case CallPart(c) =>
      ContainsTransitive(text, q.text, c.fnName);
      ContainsTransitive(text, q.text, c.fnArguments);
    case ResponsePart(o) => ContainsTransitive(text, q.text, o.content);
    case Custom(json) => ContainsTransitive(text, q.text, json);
    case ReasoningContent(t) => ContainsTransitive(text, q.text, JsonString(t));
    case _ =>
  }

  lemma {:induction false} RenderedTextShows(m: Message, separator: string, q: Part)
    requires q in RenderHistoricalText(m, "").parts && q.TextPart?
    ensures Contains(SummaryText(m, separator), q.text)
  {
    hide Contains, AppearInOrder;
    var parts := RenderHistoricalText(m, "").parts;
    TextIsAmong(parts, q);
    JoinedShowsTexts(parts, separator);
    AppearsIsContained(TextsOf(parts), SummaryText(m, separator), q.text);
  }

  lemma {:induction false} SummaryMentions(m: Message, separator: string, p: Part)
    requires p in m.parts
    ensures Mentions(p, SummaryText(m, separator))
  {
    hide Tells, Contains, SummaryText;
    if !p.ThoughtSignature? {
      RenderedPart(m.parts, "", p);
      RenderPartTells(p, "");
      var q := RenderPart(p, "");
      assert q in RenderHistoricalText(m, "").parts;
      if q.TextPart? {
        RenderedTextShows(m, separator, q);
      }
      ToldIsMentioned(p, q, SummaryText(m, separator));
    }
  }

  lemma {:induction false} KeptIsMentioned(p: Part, q: Part, text: string)
    requires SameButIds(p, q) && Mentions(q, text)
    ensures Mentions(p, text)
  {
    hide Contains;
  }

  /** The text of each normalised message mentions everything its row said. */
  lemma {:induction false} RowIsMentioned(ms: seq<Message>, k: nat, separator: string)
    requires k < |ms|
    ensures |NormalizeHistory(ms)| == |ms| && MentionsAll(ms[k], SummaryText(NormalizeHistory(ms)[k], separator))
  {
    hide NormalizeHistory, SummaryText, Mentions, SameButIds, Tells;
    NormalizeKeepsLength(ms);
    var after := NormalizeHistory(ms)[k];
    var text := SummaryText(after, separator);
    forall p | p in ms[k].parts ensures Mentions(p, text) {
      var j :| 0 <= j < |ms[k].parts| && ms[k].parts[j] == p;
      NoPartIsLost(ms, k, j);
      if after.role == ms[k].role && |after.parts| == |ms[k].parts| && SameButIds(p, after.parts[j]) {
        SummaryMentions(after, separator, after.parts[j]);
        KeptIsMentioned(p, after.parts[j], text);
      } else {
        ToldInTextIsMentioned(p, after, separator);
      }
    }
  }

  lemma {:induction false} ToldInTextIsMentioned(p: Part, after: Message, separator: string)
    requires StillTold(p, after.parts)
    ensures Mentions(p, SummaryText(after, separator))
  {
    hide SummaryText, Tells, Contains;
    if !p.ThoughtSignature? {
      var q :| q in after.parts && Tells(p, q);
      SummaryMentions(after, separator, q);
      ToldIsMentioned(p, q, SummaryText(after, separator));
    }
  }

  // ---------- the prompt ----------

  /** Who is shown to speak: a tool message outside a complete exchange is shown as the user's. */
  function Speaker(ms: seq<Message>, k: nat): Role
    requires k < |ms|
  {
    if ms[k].role == Tool && !InExchange(ms, k) then User else ms[k].role
  }

  lemma {:induction false} SpeakerIsRole(ms: seq<Message>, k: nat)
    requires k < |ms|
    ensures |NormalizeHistory(ms)| == |ms| && NormalizeHistory(ms)[k].role == Speaker(ms, k)
  {
    hide InExchange, ToldInOrder, NormalizeHistory;
    NormalizeTells(ms, k);
  }

  lemma {:induction false} RoleLabelsDiffer(a: Role, b: Role)
    requires a != b
    ensures !(RoleLabel(a) <= RoleLabel(b))
  {
    assert RoleLabel(a)[1] != RoleLabel(b)[1];
  }

  /** One entry of the prompt: the speaker, and the text, or what the cut leaves of it when it has over 2000 bytes. */
  ghost predicate Entry(s: string, role: Role, text: string) {
    if ByteLen(text) <= 2000 then s == RoleLabel(role) + ": " + text + "\n\n"
    else exists n: nat :: CutsAt(text, 2000, n) && s == RoleLabel(role) + ": " + (text[..n] + "...") + "\n\n"
  }

  /** From `from` on, the prompt has an entry for each message from `k` on, in order, whose text mentions all of it. */
  ghost predicate Lists(prompt: string, from: nat, ms: seq<Message>, k: nat)
    requires k <= |ms|
    decreases |ms| - k
  {
    k == |ms|
    || exists end: nat, text: string ::
         && from <= end <= |prompt| && Entry(prompt[from..end], Speaker(ms, k), text)
         && MentionsAll(ms[k], text) && Lists(prompt, end, ms, k + 1)
  }

  lemma {:induction false} LineIsEntry(m: Message, separator: string)
    ensures Entry(Line(m, separator), m.role, SummaryText(m, separator))
  {
    hide SummaryText, CutsAt, ByteLen, RoleLabel;
    var text := SummaryText(m, separator);
    if ByteLen(text) > 2000 {
      TruncateBounds(text, 2000);
    }
  }

  lemma {:induction false} SliceOf(prefix: string, s: string, suffix: string)
    ensures (prefix + s + suffix)[|prefix|..|prefix| + |s|] == s
  {
  }

  lemma {:induction false} LinesList(prefix: string, ms: seq<Message>, k: nat, separator: string, suffix: string)
    requires k <= |ms| == |NormalizeHistory(ms)|
    ensures Lists(prefix + Lines(NormalizeHistory(ms)[k..], separator) + suffix, |prefix|, ms, k)
    decreases |ms| - k
  {
    hide NormalizeHistory, Line, Entry, MentionsAll, Speaker, SummaryText;
    var normal := NormalizeHistory(ms);
    if k < |ms| {
      var line, rest := Line(normal[k], separator), Lines(normal[k + 1..], separator);
      assert normal[k..][0] == normal[k] && normal[k..][1..] == normal[k + 1..];
      var prompt := prefix + (line + rest) + suffix;
      assert prompt == (prefix + line) + rest + suffix;
      assert prompt == prefix + line + (rest + suffix);
      SliceOf(prefix, line, rest + suffix);
      LineIsEntry(normal[k], separator);
      SpeakerIsRole(ms, k);
      RowIsMentioned(ms, k, separator);
      LinesList(prefix + line, ms, k + 1, separator, suffix);
      assert Entry(prompt[|prefix|..|prefix + line|], Speaker(ms, k), SummaryText(normal[k], separator));
    }
  }

  /** The prompt holds the summary so far, and after it an entry for every message. */
  ghost predicate Reads(prompt: string, summary: Option<StoredSummary>, ms: seq<Message>) {
    exists from: nat ::
      && from <= |prompt| && (summary.Some? ==> Contains(prompt[..from], summary.value.text))
      && Lists(prompt, from, ms, 0)
  }

  lemma {:induction false} OpeningHoldsSummary(w: Wording, summary: StoredSummary)
    ensures Contains(Opening(w, Some(summary)), summary.text)
  {
    ContainsMiddle(w.preamble + w.summaryHeading, summary.text, "\n\n" + w.rowsHeading);
    assert Opening(w, Some(summary)) == (w.preamble + w.summaryHeading) + summary.text + ("\n\n" + w.rowsHeading);
  }

  /** Whatever the rows, the prompt holds the summary so far and everything said in those that can be read. */
  lemma {:induction false} PromptReads(w: Wording, summary: Option<StoredSummary>, rows: seq<StoredMessage>)
    ensures Reads(Prompt(w, summary, rows), summary, Decodable(rows))
  {
    hide NormalizeHistory, Lists, Contains, Opening, Decodable;
    var ms := Decodable(rows);
    var opening, prompt := Opening(w, summary), Prompt(w, summary, rows);
    NormalizeKeepsLength(ms);
    assert NormalizeHistory(ms)[0..] == NormalizeHistory(ms);
    LinesList(opening, ms, 0, w.separator, w.closing);
    assert prompt[..|opening|] == opening;
    if summary.Some? {
      OpeningHoldsSummary(w, summary.value);
    }
  }
}
