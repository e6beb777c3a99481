/**
 * `buildTemplate`: a clone of the page's entry template whose four elements are
 * filled in or removed one after the other. The elements are found by id; a
 * lookup that finds nothing yields null, and calling a method on null throws,
 * which is modelled as a `NullElement` failure naming the selector.
 */
module Template {
  import opened Wrappers

  /** The content of one element of the clone. */
  datatype Slot = Placeholder | Filled(html: string) | Removed

  /**
   * The cloned template: the external-link marker, the heading (with its hover
   * colour class), the subheading and the description.
   */
  datatype Fragment = Fragment(
    externalMark: bool,
    heading: Slot,
    hover: bool,
    subheading: Slot,
    description: Slot)

  /** The error thrown by a method call on the null a failed lookup returns. */
  datatype TemplateError = NullElement(selector: string)

  /** The four arguments of `buildTemplate`. */
  datatype TemplateInput = TemplateInput(external: bool, heading: string, subheading: string, description: string)

  /** The elements of the template, by id. */
  datatype Node = ExternalNode | HeadingNode | SubheadingNode | DescriptionNode

  const ExternalId := "#template_external"
  const HeadingId := "#template_heading"
  const SubheadingId := "#template_subheading"
  const DescriptionId := "#template_description"
  /** The selector the subheading removal uses: no element has this id. */
  const MisspelledSubheadingId := "#tmplate_subheading"
  /** The class removed from the heading of a non-external entry. */
  const HoverClass := "group-hover:text-gray-500"

  /** What the template holds before any step. */
  const Blank := Fragment(true, Placeholder, true, Placeholder, Placeholder)

  function ById(selector: string): Option<Node> {
    if selector == ExternalId then Some(ExternalNode)
    else if selector == HeadingId then Some(HeadingNode)
    else if selector == SubheadingId then Some(SubheadingNode)
    else if selector == DescriptionId then Some(DescriptionNode)
    else None
  }

  predicate Has(t: Fragment, n: Node) {
    match n
    case ExternalNode => t.externalMark
    case HeadingNode => t.heading != Removed
    case SubheadingNode => t.subheading != Removed
    case DescriptionNode => t.description != Removed
  }

  /** `t.querySelector(selector)`: the element with that id, if it is still there. */
  function QuerySelector(t: Fragment, selector: string): Option<Node> {
    match ById(selector)
    case Some(n) => if Has(t, n) then Some(n) else None
    case None => None
  }

  /** `t.querySelector(selector).remove()` */
  function Remove(t: Fragment, selector: string): Result<Fragment, TemplateError> {
    match QuerySelector(t, selector)
    case None => Failure(NullElement(selector))
    case Some(n) =>
      Success(match n
        case ExternalNode => t.(externalMark := false)
        case HeadingNode => t.(heading := Removed)
        case SubheadingNode => t.(subheading := Removed)
        case DescriptionNode => t.(description := Removed))
  }

  /** `t.querySelector(selector).innerHTML = html`; the marker element has no content to set. */
  function SetInnerHtml(t: Fragment, selector: string, html: string): Result<Fragment, TemplateError> {
    match QuerySelector(t, selector)
    case None => Failure(NullElement(selector))
    case Some(n) =>
      Success(match n
        case ExternalNode => t
        case HeadingNode => t.(heading := Filled(html))
        case SubheadingNode => t.(subheading := Filled(html))
        case DescriptionNode => t.(description := Filled(html)))
  }

  /** `t.querySelector(selector).classList.remove(HoverClass)`; only the heading carries that class. */
  function RemoveHover(t: Fragment, selector: string): Result<Fragment, TemplateError> {
    match QuerySelector(t, selector)
    case None => Failure(NullElement(selector))
    case Some(n) => Success(if n == HeadingNode then t.(hover := false) else t)
  }

  /** The element for a value: removed when the value is empty, showing it otherwise. */
  function SlotOf(html: string): Slot {
    if html == "" then Removed else Filled(html)
  }

  /**
   * What `buildTemplate` yields, stated declaratively: an empty subheading always
   * throws (its removal uses a selector no element has); an empty heading throws
   * for a non-external entry (the removed heading is looked up again to drop its
   * hover class); otherwise every element shows its value or is gone.
   */
  function Instantiate(external: bool, heading: string, subheading: string, description: string): Result<Fragment, TemplateError> {
    if subheading == "" then Failure(NullElement(MisspelledSubheadingId))
    else if heading == "" && !external then Failure(NullElement(HeadingId))
    else Success(Fragment(external, SlotOf(heading), external, Filled(subheading), SlotOf(description)))
  }

  function Build(a: TemplateInput): Result<Fragment, TemplateError> {
    Instantiate(a.external, a.heading, a.subheading, a.description)
  }

  /** Runs `step` on the clone unless an earlier step has already thrown. */
  function Then(r: Result<Fragment, TemplateError>, step: Fragment -> Result<Fragment, TemplateError>): Result<Fragment, TemplateError> {
    match r
    case Failure(e) => Failure(e)
    case Success(t) => step(t)
  }

  /**
   * The steps of `buildTemplate` on a fresh clone, in the order the page script
   * takes them; once a step throws, the rest are skipped.
   */
  method BuildTemplate(external: bool, heading: string, subheading: string, description: string)
    returns (r: Result<Fragment, TemplateError>)
    ensures r == Instantiate(external, heading, subheading, description)
  {
    r := Success(Blank);
    if !external {
      r := Then(r, t => Remove(t, ExternalId));
    }
    if heading == "" {
      r := Then(r, t => Remove(t, HeadingId));
    } else {
      r := Then(r, t => SetInnerHtml(t, HeadingId, heading));
    }
    if subheading == "" {
      assert ById(MisspelledSubheadingId) == None;
      r := Then(r, t => Remove(t, MisspelledSubheadingId));
    } else {
      r := Then(r, t => SetInnerHtml(t, SubheadingId, subheading));
    }
    if description == "" {
      r := Then(r, t => Remove(t, DescriptionId));
    } else {
      r := Then(r, t => SetInnerHtml(t, DescriptionId, description));
    }
    if !external {
      r := Then(r, t => RemoveHover(t, HeadingId));
    }
  }

  /** A slot shows `html` when it is non-empty and is gone when it is empty. */
  predicate Shows(s: Slot, html: string) {
    if html == "" then s == Removed else s == Filled(html)
  }

  /**
   * The template builds exactly when the subheading is non-empty and the entry
   * either links out or has a heading; the failure names the lookup that found
   * nothing; a built fragment has no placeholder left, keeps the external marker
   * and the hover colour exactly for an external entry, and shows each value.
   */
  lemma InstantiateMeaning(external: bool, heading: string, subheading: string, description: string)
    ensures Instantiate(external, heading, subheading, description).Success?
      <==> subheading != "" && (external || heading != "")
    ensures subheading == "" ==>
      Instantiate(external, heading, subheading, description) == Failure(NullElement(MisspelledSubheadingId))
    ensures subheading != "" && heading == "" && !external ==>
      Instantiate(external, heading, subheading, description) == Failure(NullElement(HeadingId))
    ensures Instantiate(external, heading, subheading, description).Success? ==>
      var f := Instantiate(external, heading, subheading, description).value;
      f.externalMark == external && f.hover == external
      && Shows(f.heading, heading) && Shows(f.subheading, subheading) && Shows(f.description, description)
  {
  }

  /** The selector of the subheading removal names no element of the template. */
  lemma MisspelledSelectorFindsNothing(t: Fragment)
    ensures QuerySelector(t, MisspelledSubheadingId) == None
    ensures QuerySelector(t, SubheadingId) == (if t.subheading == Removed then None else Some(SubheadingNode))
  {
  }
}
