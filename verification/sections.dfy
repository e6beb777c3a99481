/**
 * The four list sections of the page (experiences, education, projects,
 * certifications): how each entry is turned into the arguments of
 * `buildTemplate`, and the loops that append one fragment per entry to the
 * section's container until a template throws.
 */
module Sections {
  import opened Wrappers
  import opened Markup
  import opened Template

  datatype Period = Period(begin: string, end: string)
  datatype Validity = Validity(issued: string, expiry: string)

  datatype Experience = Experience(role: string, company: string, date: Period, description: seq<string>)
  datatype Education = Education(field: string, institution: string, date: Period)
  datatype Project = Project(name: string, link: string, stacks: seq<string>, description: seq<string>)
  datatype Certification = Certification(name: string, issuer: string, date: Validity)

  // ---------------------------------------------------------------------------
  // Entry fields

  /** `${org} | ${begin} - ${end}` */
  function Dated(org: string, p: Period): string {
    org + " | " + p.begin + " - " + p.end
  }

  /** No item gives nothing, one item is shown as it is, several become a list. */
  function DescriptionMarkup(ds: seq<string>): string {
    if |ds| == 0 then "" else if |ds| == 1 then ds[0] else BuildList(ds)
  }

  function ExperienceInput(e: Experience): TemplateInput {
    TemplateInput(false, e.role, Dated(e.company, e.date), DescriptionMarkup(e.description))
  }

  function EducationInput(e: Education): TemplateInput {
    TemplateInput(false, e.field, Dated(e.institution, e.date), "")
  }

  /** The name, as a link when the project has one. */
  function ProjectHeading(p: Project): string {
    if p.link == "" then p.name else BuildLink(p.name, p.link)
  }

  function ProjectSubheading(p: Project): string {
    if |p.stacks| < 1 then "" else BuildPills(p.stacks)
  }

  function ProjectInput(p: Project): TemplateInput {
    TemplateInput(p.link != "", ProjectHeading(p), ProjectSubheading(p), DescriptionMarkup(p.description))
  }

  /** `${issuer} | ${issued} ${expiry === '' ? '' : '-'} ${expiry}` */
  function CertificationSubheading(c: Certification): string {
    c.issuer + " | " + c.date.issued + " " + (if c.date.expiry == "" then "" else "-") + " " + c.date.expiry
  }

  function CertificationInput(c: Certification): TemplateInput {
    TemplateInput(false, c.name, CertificationSubheading(c), "")
  }

  // ---------------------------------------------------------------------------
  // Rendering a section

  /** The fragments a loop appends, and the error that stopped it, if any. */
  datatype Rendering = Rendering(appended: seq<Fragment>, failure: Option<TemplateError>)

  /** One template per entry, in order, until the first that throws. */
  function RunAll<E>(entries: seq<E>, input: E -> TemplateInput): Rendering
    decreases |entries|
  {
    if entries == [] then Rendering([], None)
    else match Build(input(entries[0]))
      case Failure(e) => Rendering([], Some(e))
      case Success(f) =>
        var rest := RunAll(entries[1..], input);
        Rendering([f] + rest.appended, rest.failure)
  }

  /** The container of one section, with whether the section is still on the page. */
  class Container {
    var fragments: seq<Fragment>
    var attached: bool

    constructor ()
      ensures fragments == [] && attached
    {
      fragments := [];
      attached := true;
    }

    /** `container.append(fragment)` */
    method Append(f: Fragment)
      modifies this
      ensures fragments == old(fragments) + [f]
      ensures attached == old(attached)
    {
      fragments := fragments + [f];
    }

    /** `container.parentElement.remove()`: the whole section leaves the page. */
    method RemoveSection()
      modifies this
      ensures !attached
      ensures fragments == old(fragments)
    {
      attached := false;
    }
  }

  /**
   * The loop of `renderExperiences`, `renderEducation`, `renderProjects` and
   * `renderCertifications`: for each entry, build its template and append it;
   * a template that throws ends the loop and is returned.
   */
  method RenderEntries<E>(entries: seq<E>, input: E -> TemplateInput, box: Container)
    returns (failure: Option<TemplateError>)
    modifies box
    ensures box.fragments == old(box.fragments) + RunAll(entries, input).appended
    ensures failure == RunAll(entries, input).failure
    ensures box.attached == old(box.attached)
  {
    var i := 0;
    while i < |entries|
      invariant 0 <= i <= |entries|
      invariant RunAll(entries[..i], input).failure == None
      invariant box.fragments == old(box.fragments) + RunAll(entries[..i], input).appended
      invariant box.attached == old(box.attached)
    {
      var a := input(entries[i]);
      var r := BuildTemplate(a.external, a.heading, a.subheading, a.description);
      RunAllSnoc(entries[..i], entries[i], input);
      assert entries[..i + 1] == entries[..i] + [entries[i]];
      if r.Failure? {
        RunAllStops(entries[..i + 1], entries[i + 1..], input);
        assert entries[..i + 1] + entries[i + 1..] == entries;
        return Some(r.error);
      }
      box.Append(r.value);
      i := i + 1;
    }
    assert entries[..i] == entries;
    return None;
  }

  // ---------------------------------------------------------------------------
  // Lemmas about a loop

  lemma {:induction false} RunAllSnoc<E>(entries: seq<E>, x: E, input: E -> TemplateInput)
    requires RunAll(entries, input).failure == None
    ensures RunAll(entries + [x], input) ==
      match Build(input(x))
      case Success(f) => Rendering(RunAll(entries, input).appended + [f], None)
      case Failure(e) => Rendering(RunAll(entries, input).appended, Some(e))
  {
    if entries == [] {
      assert entries + [x] == [x];
    } else {
      assert (entries + [x])[1..] == entries[1..] + [x];
      RunAllSnoc(entries[1..], x, input);
    }
  }

  /** Entries after the one that throws are never looked at. */
  lemma {:induction false} RunAllStops<E>(entries: seq<E>, later: seq<E>, input: E -> TemplateInput)
    requires RunAll(entries, input).failure.Some?
    ensures RunAll(entries + later, input) == RunAll(entries, input)
  {
    assert entries != [];
    assert (entries + later)[0] == entries[0];
    if Build(input(entries[0])).Success? {
      assert (entries + later)[1..] == entries[1..] + later;
      RunAllStops(entries[1..], later, input);
    }
  }

  /**
   * A loop appends the fragments of a prefix of the entries, each the template of
   * its entry; it reports no error exactly when it got through every entry, and
   * otherwise the error is that of the first entry left out.
   */
  lemma {:induction false} RunAllMeaning<E>(entries: seq<E>, input: E -> TemplateInput)
    ensures |RunAll(entries, input).appended| <= |entries|
    ensures forall i :: 0 <= i < |RunAll(entries, input).appended| ==>
      Build(input(entries[i])) == Success(RunAll(entries, input).appended[i])
    ensures RunAll(entries, input).failure == None <==> |RunAll(entries, input).appended| == |entries|
    ensures RunAll(entries, input).failure.Some? ==>
      Build(input(entries[|RunAll(entries, input).appended|])) == Failure(RunAll(entries, input).failure.value)
  {
    if entries != [] && Build(input(entries[0])).Success? {
      RunAllMeaning(entries[1..], input);
      var r := RunAll(entries, input);
      var rest := RunAll(entries[1..], input);
      assert r.appended == [Build(input(entries[0])).value] + rest.appended;
      forall i | 0 <= i < |r.appended|
        ensures Build(input(entries[i])) == Success(r.appended[i])
      {
        if i > 0 {
          assert entries[i] == entries[1..][i - 1];
        }
      }
      if r.failure.Some? {
        assert entries[|r.appended|] == entries[1..][|rest.appended|];
      }
    }
  }

  /** When every entry builds, the loop appends exactly their templates. */
  lemma AllBuild<E>(entries: seq<E>, input: E -> TemplateInput)
    requires forall i :: 0 <= i < |entries| ==> Build(input(entries[i])).Success?
    ensures RunAll(entries, input).failure == None
    ensures |RunAll(entries, input).appended| == |entries|
  {
    RunAllMeaning(entries, input);
  }

  // ---------------------------------------------------------------------------
  // Lemmas about the entries

  /** A description is left out exactly when it has no item or one empty item. */
  lemma DescriptionMarkupEmptyIff(ds: seq<string>)
    ensures DescriptionMarkup(ds) == "" <==> |ds| == 0 || ds == [""]
  {
    if |ds| == 1 {
      assert ds == [ds[0]];
    }
    if |ds| >= 2 {
      assert BuildList(ds)[..|ListOpen|] == ListOpen;
    }
  }

  /** An experience throws exactly when it has no role; otherwise it shows role, dates and description. */
  lemma ExperienceOutcome(e: Experience)
    ensures Build(ExperienceInput(e)).Success? <==> e.role != ""
    ensures e.role == "" ==> Build(ExperienceInput(e)) == Failure(NullElement(HeadingId))
    ensures e.role != "" ==>
      var f := Build(ExperienceInput(e)).value;
      !f.externalMark && !f.hover && f.heading == Filled(e.role)
      && f.subheading == Filled(Dated(e.company, e.date))
      && Shows(f.description, DescriptionMarkup(e.description))
  {
    assert Dated(e.company, e.date) != "" by {
      assert Dated(e.company, e.date)[|e.company|] == ' ';
    }
    InstantiateMeaning(false, e.role, Dated(e.company, e.date), DescriptionMarkup(e.description));
  }

  /** An education entry throws exactly when it has no field; it never shows a description. */
  lemma EducationOutcome(e: Education)
    ensures Build(EducationInput(e)).Success? <==> e.field != ""
    ensures e.field == "" ==> Build(EducationInput(e)) == Failure(NullElement(HeadingId))
    ensures e.field != "" ==>
      var f := Build(EducationInput(e)).value;
      !f.externalMark && !f.hover && f.heading == Filled(e.field) && f.subheading == Filled(Dated(e.institution, e.date))
      && f.description == Removed
  {
    assert Dated(e.institution, e.date) != "" by {
      assert Dated(e.institution, e.date)[|e.institution|] == ' ';
    }
    InstantiateMeaning(false, e.field, Dated(e.institution, e.date), "");
  }

  /**
   * A project throws when it has no stack (the subheading removal's selector
   * finds nothing) and when it has neither name nor link; otherwise it is marked
   * external exactly when it has a link, and its name is shown as that link.
   */
  lemma ProjectOutcome(p: Project)
    ensures Build(ProjectInput(p)).Success? <==> |p.stacks| > 0 && (p.name != "" || p.link != "")
    ensures |p.stacks| == 0 ==> Build(ProjectInput(p)) == Failure(NullElement(MisspelledSubheadingId))
    ensures |p.stacks| > 0 && p.name == "" && p.link == "" ==> Build(ProjectInput(p)) == Failure(NullElement(HeadingId))
    ensures Build(ProjectInput(p)).Success? ==>
      var f := Build(ProjectInput(p)).value;
      f.externalMark == (p.link != "") && f.hover == (p.link != "")
      && f.heading == Filled(if p.link == "" then p.name else BuildLink(p.name, p.link))
      && f.subheading == Filled(BuildPills(p.stacks))
      && Shows(f.description, DescriptionMarkup(p.description))
  {
    BuildPillsEmptyIff(p.stacks);
    BuildLinkNonEmpty(p.name, p.link);
    InstantiateMeaning(p.link != "", ProjectHeading(p), ProjectSubheading(p), DescriptionMarkup(p.description));
  }

  /** A certification throws exactly when it has no name; it never shows a description. */
  lemma CertificationOutcome(c: Certification)
    ensures Build(CertificationInput(c)).Success? <==> c.name != ""
    ensures c.name == "" ==> Build(CertificationInput(c)) == Failure(NullElement(HeadingId))
    ensures c.name != "" ==>
      var f := Build(CertificationInput(c)).value;
      !f.externalMark && !f.hover && f.heading == Filled(c.name) && f.subheading == Filled(CertificationSubheading(c))
      && f.description == Removed
  {
    assert CertificationSubheading(c) != "" by {
      assert CertificationSubheading(c)[|c.issuer|] == ' ';
    }
    InstantiateMeaning(false, c.name, CertificationSubheading(c), "");
  }

  /** Without an expiry date the dash is dropped but both spaces around it stay. */
  lemma CertificationSubheadingShape(c: Certification)
    ensures c.date.expiry == "" ==> CertificationSubheading(c) == c.issuer + " | " + c.date.issued + "  "
    ensures c.date.expiry != "" ==> CertificationSubheading(c) == c.issuer + " | " + c.date.issued + " - " + c.date.expiry
  {
  }
}
