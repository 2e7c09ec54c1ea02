/** The AI search result card. It receives the search state as props (the
    query, the streamed answer text so far, a four-valued status, the source
    citations and an error) and

    - re-serialises the WHOLE answer text to MDX whenever the text or the
      status changes, keeping the last serialisation that settled, and
      schedules a scroll to the bottom while the answer is loading or done;
    - shows the query, a panel of ten sample questions before any query,
      an error line, the rendered answer and, once done, the sources.

    The MDX serialiser is opaque: a constructor parameter mapping a whole
    buffer to its compiled form, or to `None` when serialisation fails. */
module SearchResultCard {
  import opened Common

  datatype Status = Initial | Loading | Done | Error

  /** The HTTP status code and text of a failed search. */
  datatype SearchError = SearchError(status: nat, statusText: string)

  /** A citation; both fields are optional in the props. */
  datatype Source = Source(title: Option<string>, url: Option<string>)

  /** `sources` is `undefined` (None) or an array (Some), possibly empty. */
  datatype Props = Props(
    error: Option<SearchError>, sources: Option<seq<Source>>, status: Status,
    query: string, streamData: string)

  /** The result of serialising a buffer to MDX. */
  datatype Mdx = Mdx(compiledSource: string)

  const SampleQuestions: seq<string> := [
    "Use of shader in R3F",
    "Code: staggered animations",
    "Example on how to use Framer Motion's LayoutGroup",
    "Show me how to compose CSS variables",
    "Tell me about Maxime's first Three.js project",
    "What is the difference between varyings and uniforms?",
    "How to build a refraction shader?",
    "What's the difference between a vertex shader and a fragment shader?",
    "How did Maxime manage to store his Apple Watch health data?",
    "What's a great use case for render targets?"
  ]

  // ---------------------------------------------------------------------
  // What is shown for given props
  // ---------------------------------------------------------------------

  /** The query is echoed whenever it is non-empty. */
  predicate ShowsQuery(p: Props) {
    p.query != ""
  }

  /** The echoed query, between double quotes. */
  function QueryEcho(p: Props): (echo: Option<string>)
    ensures echo.Some? <==> ShowsQuery(p)
    ensures echo.Some? ==>
      |echo.value| == |p.query| + 2 && echo.value[0] == '"' && echo.value[|echo.value| - 1] == '"'
      && echo.value[1..|echo.value| - 1] == p.query
  {
    if p.query != "" then Some("\"" + p.query + "\"") else None
  }

  /** The sample panel: nothing streamed, no query, and no search started. */
  predicate ShowsSamplePanel(p: Props) {
    p.streamData == "" && p.query == "" && p.status == Initial
  }

  /** The sources panel: the search is done and the sources are defined. */
  predicate ShowsSources(p: Props) {
    p.status == Done && p.sources.Some?
  }

  /** The error line is shown whenever there is an error. */
  predicate ShowsErrorLine(p: Props) {
    p.error.Some?
  }

  /** How the sources list is drawn. */
  datatype ListVariant = Ordered | Unordered

  /** The sources are numbered exactly when there is more than one. */
  function SourceListVariant(sources: seq<Source>): (v: ListVariant)
    ensures v == Ordered <==> |sources| > 1
  {
    if |sources| > 1 then Ordered else Unordered
  }

  /** Whether the body scrolls vertically. */
  datatype Overflow = Hidden | Auto

  /** The body cannot be scrolled by the reader exactly while loading. */
  function BodyOverflow(status: Status): (o: Overflow)
    ensures o == Hidden <==> status == Loading
  {
    if status == Loading then Hidden else Auto
  }

  /** The sample buttons, in order: what each shows and what a click on it
      passes to `onQuestionSelect`. */
  datatype SampleButton = SampleButton(caption: string, selects: string)

  function SampleButtons(): (buttons: seq<SampleButton>)
    ensures |buttons| == |SampleQuestions| == 10
    ensures forall i :: 0 <= i < |buttons| ==>
      buttons[i].caption == SampleQuestions[i] && buttons[i].selects == SampleQuestions[i]
  {
    seq(|SampleQuestions|, i requires 0 <= i < |SampleQuestions| => SampleButton(SampleQuestions[i], SampleQuestions[i]))
  }

  /** Every character of `s` is a decimal digit. */
  predicate IsDigits(s: string) {
    forall k :: 0 <= k < |s| ==> '0' <= s[k] <= '9'
  }

  /** The decimal text of a number, as JSX renders a non-negative integer. */
  function Decimal(n: nat): (s: string)
    ensures |s| > 0 && IsDigits(s)
    ensures |s| > 1 ==> s[0] != '0'
    decreases n
  {
    if n < 10 then [DigitChar(n)] else Decimal(n / 10) + [DigitChar(n % 10)]
  }

  function DigitChar(d: nat): (c: char)
    requires d < 10
    ensures '0' <= c <= '9' && c as int - '0' as int == d
  {
    ('0' as int + d) as char
  }

  /** The value of a string of decimal digits. */
  function DecimalValue(s: string): nat
    requires IsDigits(s)
  {
    if s == [] then 0 else DecimalValue(s[..|s| - 1]) * 10 + (s[|s| - 1] as int - '0' as int)
  }

  /** The number shown in the error line reads back as the status code. */
  lemma {:induction false} DecimalRoundTrip(n: nat)
    ensures DecimalValue(Decimal(n)) == n
    decreases n
  {
    if n >= 10 {
      DecimalRoundTrip(n / 10);
      var s := Decimal(n);
      assert s[..|s| - 1] == Decimal(n / 10);
    }
  }

  const ErrorLineTail := ". Please give it another try later."

  /** The error line: status code, status text, and a request to retry. */
  function ErrorLine(e: SearchError): (line: string)
    ensures |line| > |e.statusText| + |ErrorLineTail| + 1
    ensures HasAt(line, |line| - |ErrorLineTail|, ErrorLineTail)
  {
    var line := Decimal(e.status) + " " + e.statusText + ErrorLineTail;
    assert line[|line| - |ErrorLineTail|..] == ErrorLineTail;
    line
  }

  /** The error line reads back as its parts: it starts with digits that
      read back as the status code, then a space, then the status text and
      the retry request. */
  lemma ErrorLineParts(e: SearchError)
    ensures var line, digits := ErrorLine(e), Decimal(e.status);
      && 0 < |digits| && |digits| + 1 + |e.statusText| + |ErrorLineTail| == |line|
      && IsDigits(digits) && DecimalValue(digits) == e.status && line[..|digits|] == digits
      && line[|digits|] == ' ' && line[|digits| + 1..] == e.statusText + ErrorLineTail
  {
    LineParts(Decimal(e.status), e.statusText);
    DecimalRoundTrip(e.status);
  }

  /** Where the parts of a line made of digits, a space, a text and the
      retry request lie. */
  lemma LineParts(digits: string, text: string)
    ensures var line := digits + " " + text + ErrorLineTail;
      && |line| == |digits| + 1 + |text| + |ErrorLineTail|
      && line[..|digits|] == digits && line[|digits|] == ' '
      && line[|digits| + 1..] == text + ErrorLineTail
  {
    var line := digits + " " + text + ErrorLineTail;
    assert line == digits + (" " + text + ErrorLineTail);
    assert line[|digits|..] == " " + text + ErrorLineTail;
  }

  // ---------------------------------------------------------------------
  // The effect on [streamData, status], updating the card in place
  // ---------------------------------------------------------------------

  class ResultCard {
    /** The MDX serialiser; `None` when its promise rejects. */
    const serialize: string -> Option<Mdx>

    /** The component's `mdxData` state. */
    var mdxData: Option<Mdx>
    /** Buffers handed to `serialize` whose promise has not settled yet. */
    var pending: seq<string>
    /** Scroll-to-bottom callbacks scheduled and not yet run. */
    var scheduledScrolls: nat
    /** The body's vertical scroll position as last set or requested; the
        browser's clamp to `scrollHeight - clientHeight` is not modelled. */
    var scrollTop: int

    /** The buffer the current `mdxData` was serialised from. */
    ghost var renderedFrom: Option<string>
    /** Every buffer ever handed to `serialize`. */
    ghost var handedOver: set<string>

    /** What is rendered is always the serialisation of a whole, non-empty
        buffer that was handed over; every pending buffer is non-empty. */
    ghost predicate Valid()
      reads this
    {
      && (mdxData.Some? <==> renderedFrom.Some?)
      && (renderedFrom.Some? ==>
            renderedFrom.value != "" && renderedFrom.value in handedOver
            && serialize(renderedFrom.value) == mdxData)
      && (forall b :: b in pending ==> b != "" && b in handedOver)
    }

    /** A mounted card: nothing rendered, nothing pending. */
    constructor (serialize: string -> Option<Mdx>)
      ensures Valid()
      ensures this.serialize == serialize
      ensures mdxData.None? && pending == [] && scheduledScrolls == 0 && scrollTop == 0
    {
      this.serialize := serialize;
      mdxData := None;
      pending := [];
      scheduledScrolls := 0;
      scrollTop := 0;
      renderedFrom := None;
      handedOver := {};
    }

    /** The effect run once after mounting: the body, when present, is
        scrolled back to the top. */
    method Mounted(bodyMounted: bool)
      requires Valid()
      modifies this
      ensures Valid()
      ensures scrollTop == (if bodyMounted then 0 else old(scrollTop))
      ensures mdxData == old(mdxData) && pending == old(pending)
      ensures scheduledScrolls == old(scheduledScrolls)
    {
      if bodyMounted {
        scrollTop := 0;
      }
    }

    /** The effect run when `streamData` or `status` changes. An empty buffer
        clears the rendered answer and schedules nothing; a non-empty one is
        handed whole to `serialize`, and a scroll to the bottom is scheduled
        when the body is mounted and the status is loading or done. Nothing
        already pending is cancelled. */
    method StreamChanged(streamData: string, status: Status, bodyMounted: bool)
      requires Valid()
      modifies this
      ensures Valid()
      ensures streamData == "" ==>
        mdxData.None? && pending == old(pending) && scheduledScrolls == old(scheduledScrolls)
      ensures streamData != "" ==>
        && mdxData == old(mdxData) && pending == old(pending) + [streamData]
        && scheduledScrolls == old(scheduledScrolls)
             + (if bodyMounted && (status == Loading || status == Done) then 1 else 0)
      ensures scrollTop == old(scrollTop)
    {
      if streamData == "" {
        mdxData := None;
        renderedFrom := None;
        return;
      }
      pending := pending + [streamData];
      handedOver := handedOver + {streamData};
      if bodyMounted && (status == Loading || status == Done) {
        scheduledScrolls := scheduledScrolls + 1;
      }
    }

    /** The serialisation of the `k`-th pending buffer settles, in whatever
        order the promises settle: on success it becomes `mdxData` (there is
        no check that a newer buffer was handed over since); on failure
        `mdxData` stays as it was. */
    method SerializeSettled(k: nat)
      requires Valid() && k < |pending|
      modifies this
      ensures Valid()
      ensures pending == old(pending[..k] + pending[k + 1..])
      ensures mdxData == (if serialize(old(pending[k])).Some? then serialize(old(pending[k])) else old(mdxData))
      ensures scheduledScrolls == old(scheduledScrolls) && scrollTop == old(scrollTop)
    {
      var buffer := pending[k];
      assert buffer in pending;
      var result := serialize(buffer);
      pending := pending[..k] + pending[k + 1..];
      assert forall b :: b in pending ==> b in old(pending);
      if result.Some? {
        mdxData := result;
        renderedFrom := Some(buffer);
      }
    }

    /** Opening or closing the sources panel schedules one more scroll to
        the bottom, after a delay. */
    method SourcesToggled()
      requires Valid()
      modifies this
      ensures Valid()
      ensures scheduledScrolls == old(scheduledScrolls) + 1
      ensures mdxData == old(mdxData) && pending == old(pending) && scrollTop == old(scrollTop)
    {
      scheduledScrolls := scheduledScrolls + 1;
    }

    /** A scheduled scroll runs: the body, if still present, is asked to
        scroll to its `scrollHeight`; the position recorded is that requested
        target, not the clamped position the browser ends at. */
    method ScrollFrame(bodyMounted: bool, scrollHeight: nat)
      requires Valid() && scheduledScrolls > 0
      modifies this
      ensures Valid()
      ensures scheduledScrolls == old(scheduledScrolls) - 1
      ensures scrollTop == (if bodyMounted then scrollHeight else old(scrollTop))
      ensures mdxData == old(mdxData) && pending == old(pending)
    {
      scheduledScrolls := scheduledScrolls - 1;
      if bodyMounted {
        scrollTop := scrollHeight;
      }
    }
  }

  /** Without a staleness check the rendered answer can lag behind: two
      buffers handed over in order whose serialisations settle in the
      opposite order leave the OLDER buffer rendered. */
  method StaleRenderWins() returns (rendered: Option<Mdx>, latest: string)
    ensures latest == "A shader" && rendered == Some(Mdx("A "))
  {
    var card := new ResultCard((b: string) => Some(Mdx(b)));
    card.StreamChanged("A ", Loading, true);
    card.StreamChanged("A shader", Loading, true);
    assert card.pending == ["A ", "A shader"];
    card.SerializeSettled(1);
    assert card.pending == ["A "];
    card.SerializeSettled(0);
    rendered := card.mdxData;
    latest := "A shader";
  }

  /** Clearing the buffer does not cancel a pending serialisation: a
      settlement after the clear renders the old text again. */
  method ClearedThenRefilled() returns (rendered: Option<Mdx>)
    ensures rendered == Some(Mdx("A "))
  {
    var card := new ResultCard((b: string) => Some(Mdx(b)));
    card.StreamChanged("A ", Loading, true);
    card.StreamChanged("", Loading, true);
    assert card.mdxData.None?;
    card.SerializeSettled(0);
    rendered := card.mdxData;
  }

  // ---------------------------------------------------------------------
  // Properties of what is shown
  // ---------------------------------------------------------------------

  /** Sources are never shown for a search that is still loading, has not
      started or has failed. */
  lemma SourcesOnlyWhenDone(p: Props)
    ensures ShowsSources(p) ==> p.status != Loading && p.status != Initial && p.status != Error
    ensures p.status == Done && p.sources == Some([]) ==> ShowsSources(p)
  {
  }

  /** The sample panel and the query echo never appear together, and the
      panel disappears as soon as a search starts or text arrives. */
  lemma SamplePanelExclusive(p: Props)
    ensures ShowsSamplePanel(p) ==> !ShowsQuery(p) && !ShowsSources(p)
    ensures p.status != Initial || p.streamData != "" ==> !ShowsSamplePanel(p)
  {
  }

  /** Both panels only appear while the body can be scrolled, and an open
      sources panel numbers its entries exactly when there are several. */
  lemma PanelsScrollable(p: Props)
    ensures ShowsSources(p) ==> BodyOverflow(p.status) == Auto
    ensures ShowsSamplePanel(p) ==> BodyOverflow(p.status) == Auto
    ensures ShowsSources(p) ==> (SourceListVariant(p.sources.value) == Ordered <==> |p.sources.value| > 1)
  {
  }

  /** Selecting the `i`-th sample passes exactly the question it shows, one
      of the fixed ten, and no two buttons select the same question. */
  lemma SampleSelection(i: nat, j: nat)
    requires i < 10 && j < 10 && i != j
    ensures SampleButtons()[i].selects == SampleButtons()[i].caption == SampleQuestions[i]
    ensures SampleButtons()[i].selects != SampleButtons()[j].selects
  {
    assert forall a, b :: 0 <= a < b < 10 ==> SampleQuestions[a] != SampleQuestions[b];
  }
}
