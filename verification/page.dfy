/**
 * The page itself and its `onload` handler: the name, title, description and
 * contact line, then the four sections in order. A section whose key is absent
 * from the data is taken off the page; an error thrown while rendering a section
 * ends the handler, leaves what was appended so far, skips every later section
 * and is alerted.
 */
module Page {
  import opened Wrappers
  import opened Text
  import opened Markup
  import opened Template
  import opened Sections

  datatype Info = Info(fullName: FullNameSpec, description: string, contact: Contact)

  /** The data file; a section key that is absent is `None`. */
  datatype Resume = Resume(
    info: Info,
    experiences: Option<seq<Experience>>,
    education: Option<seq<Education>>,
    projects: Option<seq<Project>>,
    certifications: Option<seq<Certification>>)

  /** A section as the page shows it: its fragments and whether it is still on the page. */
  datatype SectionState = SectionState(fragments: seq<Fragment>, attached: bool)

  datatype SectionStates = SectionStates(
    experiences: SectionState,
    education: SectionState,
    projects: SectionState,
    certifications: SectionState)

  /** `if (key in data) render(data[key]) else container.parentElement.remove()` */
  function Present<E>(s: SectionState, entries: Option<seq<E>>, input: E -> TemplateInput): (SectionState, Option<TemplateError>) {
    match entries
    case None => (s.(attached := false), None)
    case Some(es) =>
      var r := RunAll(es, input);
      (s.(fragments := s.fragments + r.appended), r.failure)
  }

  /** The four sections in page order; the first error stops the rest and is the one alerted. */
  function LoadSections(before: SectionStates, data: Resume): (SectionStates, Option<TemplateError>) {
    var x := Present(before.experiences, data.experiences, ExperienceInput);
    var s1 := before.(experiences := x.0);
    if x.1.Some? then (s1, x.1) else
    var y := Present(before.education, data.education, EducationInput);
    var s2 := s1.(education := y.0);
    if y.1.Some? then (s2, y.1) else
    var z := Present(before.projects, data.projects, ProjectInput);
    var s3 := s2.(projects := z.0);
    if z.1.Some? then (s3, z.1) else
    var w := Present(before.certifications, data.certifications, CertificationInput);
    (s3.(certifications := w.0), w.1)
  }

  /** Every entry of a present section builds. */
  predicate AllBuilds<E>(entries: Option<seq<E>>, input: E -> TemplateInput) {
    entries.Some? ==> forall i :: 0 <= i < |entries.value| ==> Build(input(entries.value[i])).Success?
  }

  /** Every entry of every present section has what its template needs. */
  predicate Renderable(data: Resume) {
    (data.experiences.Some? ==> forall e <- data.experiences.value :: e.role != "")
    && (data.education.Some? ==> forall e <- data.education.value :: e.field != "")
    && (data.projects.Some? ==> forall p <- data.projects.value :: |p.stacks| > 0 && (p.name != "" || p.link != ""))
    && (data.certifications.Some? ==> forall c <- data.certifications.value :: c.name != "")
  }

  /**
   * A section after its first entry that does not build threw `e`: it is still on
   * the page and holds what it held before followed by one fragment for each entry
   * before that one, each the template of that entry.
   */
  predicate Stopped<E>(before: SectionState, after: SectionState, entries: Option<seq<E>>, input: E -> TemplateInput, e: TemplateError) {
    entries.Some?
    && after.attached == before.attached
    && |before.fragments| <= |after.fragments|
    && after.fragments[..|before.fragments|] == before.fragments
    && var n := |after.fragments| - |before.fragments|;
       n < |entries.value| && Build(input(entries.value[n])) == Failure(e)
       && forall i :: 0 <= i < n ==> Build(input(entries.value[i])) == Success(after.fragments[|before.fragments| + i])
  }

  /**
   * A section after the handler, when nothing threw: without its key it is off
   * the page with its content untouched; with it, it holds what it held before
   * followed by one fragment per entry, each the template of that entry.
   */
  predicate Rendered<E>(before: SectionState, after: SectionState, entries: Option<seq<E>>, input: E -> TemplateInput) {
    match entries
    case None => after == before.(attached := false)
    case Some(es) =>
      after.attached == before.attached
      && |after.fragments| == |before.fragments| + |es|
      && after.fragments[..|before.fragments|] == before.fragments
      && forall i :: 0 <= i < |es| ==> Build(input(es[i])) == Success(after.fragments[|before.fragments| + i])
  }

  // ---------------------------------------------------------------------------
  // The page

  class Page {
    /** `#full_name` */
    var fullName: string
    /** `document.title` */
    var title: string
    /** `#description` */
    var description: string
    /** `#contact` */
    var contact: string
    const experiences: Container
    const education: Container
    const projects: Container
    const certifications: Container

    /** The four sections are four different elements. */
    predicate Valid()
      reads this
    {
      experiences != education && experiences != projects && experiences != certifications
      && education != projects && education != certifications && projects != certifications
    }

    function States(): SectionStates
      reads this, experiences, education, projects, certifications
    {
      SectionStates(
        SectionState(experiences.fragments, experiences.attached),
        SectionState(education.fragments, education.attached),
        SectionState(projects.fragments, projects.attached),
        SectionState(certifications.fragments, certifications.attached))
    }

    /** The page as served: every text empty, every section on the page and empty. */
    constructor ()
      ensures Valid()
      ensures fullName == "" && title == "" && description == "" && contact == ""
      ensures States() == SectionStates(SectionState([], true), SectionState([], true), SectionState([], true), SectionState([], true))
    {
      fullName, title, description, contact := "", "", "", "";
      experiences := new Container();
      education := new Container();
      projects := new Container();
      certifications := new Container();
    }

    /** `renderFullName`: the composed name goes into the heading and the document title. */
    method RenderFullName(spec: FullNameSpec)
      modifies this
      ensures fullName == ComposeFullName(spec) && title == ComposeFullName(spec)
      ensures description == old(description) && contact == old(contact)
    {
      var name := ComposeFullName(spec);
      fullName := name;
      title := name;
    }

    /** `renderDescription` */
    method RenderDescription(s: string)
      modifies this
      ensures description == s
      ensures fullName == old(fullName) && title == old(title) && contact == old(contact)
    {
      description := s;
    }

    /** `renderContact`: a link per provided field, joined by the separator. */
    method RenderContact(c: Contact)
      modifies this
      ensures contact == ContactLine(c)
      ensures fullName == old(fullName) && title == old(title) && description == old(description)
    {
      var items: seq<string> := [];
      if c.phone != "" {
        items := items + [BuildLink(c.phone, "tel:" + c.phone)];
      }
      if c.email != "" {
        items := items + [BuildLink(c.email, "mailto:" + c.email)];
      }
      if c.website != "" {
        items := items + [BuildLink(c.website, c.website)];
      }
      assert items == ContactLinks(c);
      contact := Join(items, Separator);
    }

    /** The data handler of `window.onload`; returns the error it alerts, if any. */
    method Onload(data: Resume) returns (alerted: Option<TemplateError>)
      requires Valid()
      modifies this, experiences, education, projects, certifications
      ensures fullName == ComposeFullName(data.info.fullName) && title == fullName
      ensures description == data.info.description
      ensures contact == ContactLine(data.info.contact)
      ensures (States(), alerted) == LoadSections(old(States()), data)
    {
      RenderFullName(data.info.fullName);
      RenderDescription(data.info.description);
      RenderContact(data.info.contact);
      alerted := RenderSection(data.experiences, ExperienceInput, experiences);
      if alerted.Some? {
        return;
      }
      alerted := RenderSection(data.education, EducationInput, education);
      if alerted.Some? {
        return;
      }
      alerted := RenderSection(data.projects, ProjectInput, projects);
      if alerted.Some? {
        return;
      }
      alerted := RenderSection(data.certifications, CertificationInput, certifications);
    }
  }

  /** One `if (key in data) … else …` of the handler, on the section's container. */
  method RenderSection<E>(entries: Option<seq<E>>, input: E -> TemplateInput, box: Container)
    returns (failure: Option<TemplateError>)
    modifies box
    ensures (SectionState(box.fragments, box.attached), failure)
      == Present(SectionState(old(box.fragments), old(box.attached)), entries, input)
  {
    match entries
    case None =>
      box.RemoveSection();
      failure := None;
    case Some(es) =>
      failure := RenderEntries(es, input, box);
  }

  // ---------------------------------------------------------------------------
  // Lemmas

  /** An empty array keeps its section on the page, unchanged. */
  lemma EmptySectionKept<E>(s: SectionState, input: E -> TemplateInput)
    ensures Present(s, Some([]), input) == (s, None)
  {
    assert s.fragments + [] == s.fragments;
  }

  /**
   * A section renders without error exactly when all its entries build, and then
   * as `Rendered` says; otherwise it is as `Stopped` says for the error reported.
   */
  lemma PresentMeaning<E>(s: SectionState, entries: Option<seq<E>>, input: E -> TemplateInput)
    ensures Present(s, entries, input).1 == None <==> AllBuilds(entries, input)
    ensures AllBuilds(entries, input) ==> Rendered(s, Present(s, entries, input).0, entries, input)
    ensures !AllBuilds(entries, input) ==>
      Stopped(s, Present(s, entries, input).0, entries, input, Present(s, entries, input).1.value)
  {
    if entries.Some? {
      var es := entries.value;
      var r := RunAll(es, input);
      RunAllMeaning(es, input);
      if AllBuilds(entries, input) {
        AllBuild(es, input);
        var after := Present(s, entries, input).0;
        assert after.fragments == s.fragments + r.appended;
        forall i | 0 <= i < |es|
          ensures Build(input(es[i])) == Success(after.fragments[|s.fragments| + i])
        {
          assert after.fragments[|s.fragments| + i] == r.appended[i];
        }
        assert after.fragments[..|s.fragments|] == s.fragments;
      } else {
        var after := Present(s, entries, input).0;
        assert after.fragments == s.fragments + r.appended;
        forall i | 0 <= i < |r.appended|
          ensures Build(input(es[i])) == Success(after.fragments[|s.fragments| + i])
        {
          assert after.fragments[|s.fragments| + i] == r.appended[i];
        }
        assert after.fragments[..|s.fragments|] == s.fragments;
      }
    }
  }

  lemma ExperiencesBuild(data: Resume)
    ensures AllBuilds(data.experiences, ExperienceInput)
      <==> (data.experiences.Some? ==> forall e <- data.experiences.value :: e.role != "")
  {
    if data.experiences.Some? {
      var es := data.experiences.value;
      forall i | 0 <= i < |es| {
        ExperienceOutcome(es[i]);
      }
    }
  }

  lemma EducationBuilds(data: Resume)
    ensures AllBuilds(data.education, EducationInput)
      <==> (data.education.Some? ==> forall e <- data.education.value :: e.field != "")
  {
    if data.education.Some? {
      var es := data.education.value;
      forall i | 0 <= i < |es| {
        EducationOutcome(es[i]);
      }
    }
  }

  lemma ProjectsBuild(data: Resume)
    ensures AllBuilds(data.projects, ProjectInput)
      <==> (data.projects.Some? ==> forall p <- data.projects.value :: |p.stacks| > 0 && (p.name != "" || p.link != ""))
  {
    if data.projects.Some? {
      var ps := data.projects.value;
      forall i | 0 <= i < |ps| {
        ProjectOutcome(ps[i]);
      }
    }
  }

  lemma CertificationsBuild(data: Resume)
    ensures AllBuilds(data.certifications, CertificationInput)
      <==> (data.certifications.Some? ==> forall c <- data.certifications.value :: c.name != "")
  {
    if data.certifications.Some? {
      var cs := data.certifications.value;
      forall i | 0 <= i < |cs| {
        CertificationOutcome(cs[i]);
      }
    }
  }

  /**
   * The handler alerts nothing exactly when every entry of every present section
   * has what its template needs; then each section is rendered or removed as its
   * key says.
   */
  lemma LoadSectionsMeaning(before: SectionStates, data: Resume)
    ensures LoadSections(before, data).1 == None <==> Renderable(data)
    ensures Renderable(data) ==>
      var after := LoadSections(before, data).0;
      Rendered(before.experiences, after.experiences, data.experiences, ExperienceInput)
      && Rendered(before.education, after.education, data.education, EducationInput)
      && Rendered(before.projects, after.projects, data.projects, ProjectInput)
      && Rendered(before.certifications, after.certifications, data.certifications, CertificationInput)
  {
    ExperiencesBuild(data);
    EducationBuilds(data);
    ProjectsBuild(data);
    CertificationsBuild(data);
    PresentMeaning(before.experiences, data.experiences, ExperienceInput);
    PresentMeaning(before.education, data.education, EducationInput);
    PresentMeaning(before.projects, data.projects, ProjectInput);
    PresentMeaning(before.certifications, data.certifications, CertificationInput);
  }

  /**
   * Whichever section first reports an error ends the handler: that error is
   * what its first entry that does not build throws, that section holds the
   * templates of the entries before that one, every earlier section is
   * rendered or removed as its key says, and every later section is left
   * exactly as it was.
   */
  lemma FailureStopsLaterSections(before: SectionStates, data: Resume)
    ensures var (after, alerted) := LoadSections(before, data);
      !AllBuilds(data.experiences, ExperienceInput) ==>
        alerted.Some? && Stopped(before.experiences, after.experiences, data.experiences, ExperienceInput, alerted.value)
        && after.education == before.education && after.projects == before.projects
        && after.certifications == before.certifications
    ensures var (after, alerted) := LoadSections(before, data);
      AllBuilds(data.experiences, ExperienceInput) && !AllBuilds(data.education, EducationInput) ==>
        alerted.Some? && Stopped(before.education, after.education, data.education, EducationInput, alerted.value)
        && Rendered(before.experiences, after.experiences, data.experiences, ExperienceInput)
        && after.projects == before.projects && after.certifications == before.certifications
    ensures var (after, alerted) := LoadSections(before, data);
      AllBuilds(data.experiences, ExperienceInput) && AllBuilds(data.education, EducationInput)
      && !AllBuilds(data.projects, ProjectInput) ==>
        alerted.Some? && Stopped(before.projects, after.projects, data.projects, ProjectInput, alerted.value)
        && Rendered(before.experiences, after.experiences, data.experiences, ExperienceInput)
        && Rendered(before.education, after.education, data.education, EducationInput)
        && after.certifications == before.certifications
    ensures var (after, alerted) := LoadSections(before, data);
      AllBuilds(data.experiences, ExperienceInput) && AllBuilds(data.education, EducationInput)
      && AllBuilds(data.projects, ProjectInput) && !AllBuilds(data.certifications, CertificationInput) ==>
        alerted.Some? && Stopped(before.certifications, after.certifications, data.certifications, CertificationInput, alerted.value)
        && Rendered(before.experiences, after.experiences, data.experiences, ExperienceInput)
        && Rendered(before.education, after.education, data.education, EducationInput)
        && Rendered(before.projects, after.projects, data.projects, ProjectInput)
  {
    PresentMeaning(before.experiences, data.experiences, ExperienceInput);
    PresentMeaning(before.education, data.education, EducationInput);
    PresentMeaning(before.projects, data.projects, ProjectInput);
    PresentMeaning(before.certifications, data.certifications, CertificationInput);
  }
}
