/** helper.go: rendering a stored template against runtime variables.

    Go's `text/template` and `html/template` engines are not modelled; each
    is an `Engine`, a function from (template name, template text,
    variables) to the rendered text or the parse/execute error. */
module Templates {
  import opened Wrappers
  import opened MailerTypes
  import Common

  type Engine<!V> = (string, string, V) -> Result<string>

  const SubjectKind: string := "subject"
  const ContentKind: string := "content"
  const HtmlKind: string := "html"

  /** The name each template is parsed under: `id:kind:locale`. */
  function TemplateName(id: string, kind: string, locale: string): string
  {
    id + ":" + kind + ":" + locale
  }

  /** Each entry of a template is rendered under its own name: names of
      different kinds, or of different locales, never coincide. */
  lemma TemplateNamesDistinct(id: string, k1: string, l1: string, k2: string, l2: string)
    requires k1 == SubjectKind || k1 == ContentKind || k1 == HtmlKind
    requires k2 == SubjectKind || k2 == ContentKind || k2 == HtmlKind
    requires k1 != k2 || l1 != l2
    ensures TemplateName(id, k1, l1) != TemplateName(id, k2, l2)
  {
    var n1 := TemplateName(id, k1, l1);
    var n2 := TemplateName(id, k2, l2);
    if k1 != k2 {
      assert n1[|id| + 1] == k1[0] && n2[|id| + 1] == k2[0];
    } else {
      var p := id + ":" + k1 + ":";
      assert n1 == p + l1 && n2 == p + l2;
      assert n1[|p|..] == l1 && n2[|p|..] == l2;
    }
  }

  /** Whether `source` holds a template action delimiter `{{`. */
  predicate HasPlaceholder(source: string)
  {
    exists i | 0 <= i < |source| - 1 :: source[i] == '{' && source[i + 1] == '{'
  }

  /** The one fact assumed of an engine: text without actions renders as itself. */
  ghost predicate RendersPlainTextVerbatim<V(!new)>(engine: Engine<V>)
  {
    forall name, source, vars | !HasPlaceholder(source) :: engine(name, source, vars) == Ok(source)
  }

  /** Renders one locale map: `Ok` with the same keys when every entry
      renders, otherwise the error of the entry the range visits first
      among the failing ones. */
  function RenderLocales<V>(id: string, kind: string, source: Option<Locales>, engine: Engine<V>,
                            vars: V, choose: Common.Choice): (r: Result<Locales>)
    requires Common.ValidChoice(choose)
    ensures r.Ok? <==> forall k | k in Entries(source) ::
                         engine(TemplateName(id, kind, k), Entries(source)[k], vars).Ok?
    ensures r.Ok? ==> r.value.Keys == Entries(source).Keys
    ensures r.Ok? ==> forall k | k in r.value ::
                        Ok(r.value[k]) == engine(TemplateName(id, kind, k), Entries(source)[k], vars)
    ensures r.Err? ==> exists k | k in Entries(source) ::
                         engine(TemplateName(id, kind, k), Entries(source)[k], vars) == Err(r.error)
  {
    var m := Entries(source);
    var failing := set k | k in m && engine(TemplateName(id, kind, k), m[k], vars).Err?;
    if failing == {} then
      assert forall k | k in m :: engine(TemplateName(id, kind, k), m[k], vars).Ok? by {
        assert forall k | k in m && engine(TemplateName(id, kind, k), m[k], vars).Err? :: k in failing;
      }
      Ok(map k | k in m :: engine(TemplateName(id, kind, k), m[k], vars).value)
    else
      var k := choose(failing);
      Err(engine(TemplateName(id, kind, k), m[k], vars).error)
  }

  /** Every entry of every map of `nt` renders with its engine. */
  predicate RendersCleanly<V>(nt: EmailTemplate, vars: V, text: Engine<V>, html: Engine<V>)
  {
    && (forall k | k in Entries(nt.subjects) ::
          text(TemplateName(nt.id, SubjectKind, k), Entries(nt.subjects)[k], vars).Ok?)
    && (forall k | k in Entries(nt.contents) ::
          text(TemplateName(nt.id, ContentKind, k), Entries(nt.contents)[k], vars).Ok?)
    && (forall k | k in Entries(nt.htmlContents) ::
          html(TemplateName(nt.id, HtmlKind, k), Entries(nt.htmlContents)[k], vars).Ok?)
  }

  /** `ParseTemplate`: renders subjects and plain contents with the text
      engine and HTML contents with the HTML engine, in that order. The
      first error aborts the call; otherwise the result has the same id and,
      for each map, exactly the keys of the input (none for a `nil` map)
      with each value rendered. */
  function ParseTemplate<V>(nt: EmailTemplate, vars: V, text: Engine<V>, html: Engine<V>,
                            choose: Common.Choice): (r: Result<EmailTemplate>)
    requires Common.ValidChoice(choose)
    ensures r.Ok? <==> RendersCleanly(nt, vars, text, html)
    ensures r.Ok? ==> r.value.id == nt.id
    ensures r.Ok? ==> r.value.subjects.Some? && r.value.contents.Some? && r.value.htmlContents.Some?
    ensures r.Ok? ==> r.value.subjects.value.Keys == Entries(nt.subjects).Keys
    ensures r.Ok? ==> r.value.contents.value.Keys == Entries(nt.contents).Keys
    ensures r.Ok? ==> r.value.htmlContents.value.Keys == Entries(nt.htmlContents).Keys
    ensures r.Ok? ==> forall k | k in Entries(nt.subjects) ::
              text(TemplateName(nt.id, SubjectKind, k), Entries(nt.subjects)[k], vars)
                == Ok(r.value.subjects.value[k])
    ensures r.Ok? ==> forall k | k in Entries(nt.contents) ::
              text(TemplateName(nt.id, ContentKind, k), Entries(nt.contents)[k], vars)
                == Ok(r.value.contents.value[k])
    ensures r.Ok? ==> forall k | k in Entries(nt.htmlContents) ::
              html(TemplateName(nt.id, HtmlKind, k), Entries(nt.htmlContents)[k], vars)
                == Ok(r.value.htmlContents.value[k])
  {
    var subjects :- RenderLocales(nt.id, SubjectKind, nt.subjects, text, vars, choose);
    var contents :- RenderLocales(nt.id, ContentKind, nt.contents, text, vars, choose);
    var htmlContents :- RenderLocales(nt.id, HtmlKind, nt.htmlContents, html, vars, choose);
    Ok(EmailTemplate(nt.id, Some(subjects), Some(contents), Some(htmlContents)))
  }

  /** A failing subject is reported before any content is rendered. */
  lemma ParseTemplateSubjectErrorFirst<V>(nt: EmailTemplate, vars: V, text: Engine<V>, html: Engine<V>,
                                          choose: Common.Choice, k: string)
    requires Common.ValidChoice(choose)
    requires k in Entries(nt.subjects)
    requires text(TemplateName(nt.id, SubjectKind, k), Entries(nt.subjects)[k], vars).Err?
    ensures ParseTemplate(nt, vars, text, html, choose)
              == RenderLocales(nt.id, SubjectKind, nt.subjects, text, vars, choose).PropagateFailure()
  {
  }

  /** A map whose every value is free of actions. */
  predicate PlainLocales(m: Option<Locales>)
  {
    forall k | k in Entries(m) :: !HasPlaceholder(Entries(m)[k])
  }

  /** With a text engine that leaves plain text alone, and HTML entries
      that all render, a template whose subjects and contents hold no
      placeholder keeps its id, subjects and contents (a `nil` map becoming
      an empty one), and its HTML map keeps its locales. */
  lemma ParseTemplatePlainIsIdentity<V(!new)>(nt: EmailTemplate, vars: V, text: Engine<V>,
                                            html: Engine<V>, choose: Common.Choice)
    requires Common.ValidChoice(choose)
    requires RendersPlainTextVerbatim(text)
    requires PlainLocales(nt.subjects) && PlainLocales(nt.contents)
    requires forall k | k in Entries(nt.htmlContents) ::
               html(TemplateName(nt.id, HtmlKind, k), Entries(nt.htmlContents)[k], vars).Ok?
    ensures var r := ParseTemplate(nt, vars, text, html, choose);
            && r.Ok?
            && r.value.id == nt.id
            && r.value.subjects == Some(Entries(nt.subjects))
            && r.value.contents == Some(Entries(nt.contents))
            && r.value.htmlContents.Some?
            && r.value.htmlContents.value.Keys == Entries(nt.htmlContents).Keys
  {
    var r := ParseTemplate(nt, vars, text, html, choose);
    assert RendersCleanly(nt, vars, text, html);
    var t := r.value;
    assert t.subjects.value == Entries(nt.subjects);
    assert t.contents.value == Entries(nt.contents);
  }
}
