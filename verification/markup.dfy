/**
 * The markup builders of the page script (`buildList`, `buildLink`,
 * `buildPills`) and the contact line of `renderContact`. Every builder
 * interpolates its arguments verbatim: nothing is escaped.
 */
module Markup {
  import opened Wrappers

  /** `xs.join(sep)`. */
  function Join(xs: seq<string>, sep: string): string {
    if xs == [] then ""
    else if |xs| == 1 then xs[0]
    else xs[0] + sep + Join(xs[1..], sep)
  }

  /** `xs.map((x) => open + x + close)`. */
  function Wrap(xs: seq<string>, open: string, close: string): (r: seq<string>)
    ensures |r| == |xs|
    ensures forall i :: 0 <= i < |xs| ==> r[i] == open + xs[i] + close
  {
    if xs == [] then [] else [open + xs[0] + close] + Wrap(xs[1..], open, close)
  }

  const ListOpen := "<ul>"
  const ListClose := "</ul>"
  const ItemOpen := "<li class=\"list-chevron\">"
  const ItemClose := "</li>"
  const PillOpen := "<span class=\"inline-flex items-center pr-5 py-0.5 rounded-full\">"
  const PillClose := "</span>"
  const LinkHead := "<a href=\""
  const LinkMiddle := "\" target=\"_blank\">"
  const LinkTail := "</a>"

  function BuildList(items: seq<string>): string {
    ListOpen + Join(Wrap(items, ItemOpen, ItemClose), "") + ListClose
  }

  function BuildLink(text: string, link: string): string {
    LinkHead + link + LinkMiddle + text + LinkTail
  }

  function BuildPills(items: seq<string>): string {
    Join(Wrap(items, PillOpen, PillClose), "")
  }

  // ---------------------------------------------------------------------------
  // Contact line

  datatype Contact = Contact(phone: string, email: string, website: string)

  /** `&nbsp;&nbsp;·&nbsp;&nbsp;` */
  const Separator := "&nbsp;&nbsp;\U{B7}&nbsp;&nbsp;"

  function PhoneLink(c: Contact): string { BuildLink(c.phone, "tel:" + c.phone) }
  function EmailLink(c: Contact): string { BuildLink(c.email, "mailto:" + c.email) }
  function WebsiteLink(c: Contact): string { BuildLink(c.website, c.website) }

  /** The links of the fields that are provided, in the order phone, email, website. */
  function ContactLinks(c: Contact): seq<string> {
    (if c.phone != "" then [PhoneLink(c)] else [])
    + (if c.email != "" then [EmailLink(c)] else [])
    + (if c.website != "" then [WebsiteLink(c)] else [])
  }

  function ContactLine(c: Contact): string {
    Join(ContactLinks(c), Separator)
  }

  // ---------------------------------------------------------------------------
  // Reading a link back

  /** The first position of `c` in `s`, or `|s|` when there is none. */
  function IndexOf(s: string, c: char): (r: nat)
    ensures r <= |s|
    ensures r < |s| ==> s[r] == c
    ensures forall k :: 0 <= k < r ==> s[k] != c
  {
    if s == [] then 0 else if s[0] == c then 0 else 1 + IndexOf(s[1..], c)
  }

  /** Splits anchor markup into its text and its target: the target ends at the first quotation mark. */
  function ParseLink(s: string): Option<(string, string)> {
    if |s| < |LinkHead| + |LinkTail| || s[..|LinkHead|] != LinkHead || s[|s| - |LinkTail|..] != LinkTail then None
    else
      var body := s[|LinkHead|..|s| - |LinkTail|];
      var q := IndexOf(body, '"');
      if |body| - q < |LinkMiddle| || body[q..q + |LinkMiddle|] != LinkMiddle then None
      else Some((body[q + |LinkMiddle|..], body[..q]))
  }

  // ---------------------------------------------------------------------------
  // Lemmas

  lemma {:induction false} JoinAppend(xs: seq<string>, ys: seq<string>)
    ensures Join(xs + ys, "") == Join(xs, "") + Join(ys, "")
  {
    if xs == [] {
      assert xs + ys == ys;
    } else if |xs| == 1 {
      if ys != [] {
        assert (xs + ys)[1..] == ys;
      }
    } else {
      JoinAppend(xs[1..], ys);
      assert (xs + ys)[1..] == xs[1..] + ys;
    }
  }

  lemma WrapAppend(xs: seq<string>, ys: seq<string>, open: string, close: string)
    ensures Wrap(xs + ys, open, close) == Wrap(xs, open, close) + Wrap(ys, open, close)
  {
  }

  lemma WrappedItemAt(items: seq<string>, k: nat, open: string, close: string)
    requires k < |items|
    ensures Join(Wrap(items, open, close), "") ==
      Join(Wrap(items[..k], open, close), "") + (open + items[k] + close) + Join(Wrap(items[k + 1..], open, close), "")
  {
    assert items == items[..k] + [items[k]] + items[k + 1..];
    var w0, w1, w2 := Wrap(items[..k], open, close), Wrap([items[k]], open, close), Wrap(items[k + 1..], open, close);
    WrapAppend(items[..k] + [items[k]], items[k + 1..], open, close);
    WrapAppend(items[..k], [items[k]], open, close);
    assert Wrap(items, open, close) == (w0 + w1) + w2;
    JoinAppend(w0 + w1, w2);
    JoinAppend(w0, w1);
    assert Join(w1, "") == open + items[k] + close;
  }

  /**
   * Each item of a list appears verbatim, wrapped in one list-item element, after
   * the items before it and before the items after it.
   */
  lemma BuildListItemAt(items: seq<string>, k: nat)
    requires k < |items|
    ensures BuildList(items) ==
      ListOpen
      + (Join(Wrap(items[..k], ItemOpen, ItemClose), "")
         + (ItemOpen + items[k] + ItemClose)
         + Join(Wrap(items[k + 1..], ItemOpen, ItemClose), ""))
      + ListClose
  {
    WrappedItemAt(items, k, ItemOpen, ItemClose);
  }

  lemma BuildListEmpty()
    ensures BuildList([]) == "<ul></ul>"
  {
  }

  /** A list of one item is that item in one list-item element. */
  lemma BuildListSingle(item: string)
    ensures BuildList([item]) == "<ul><li class=\"list-chevron\">" + item + "</li></ul>"
  {
  }

  lemma {:induction false} JoinNonEmpty(xs: seq<string>)
    requires xs != [] && xs[0] != ""
    ensures Join(xs, "") != ""
  {
    assert xs == [xs[0]] + xs[1..];
    JoinAppend([xs[0]], xs[1..]);
  }

  /** Pills produce markup exactly when there is at least one item. */
  lemma BuildPillsEmptyIff(items: seq<string>)
    ensures BuildPills(items) == "" <==> items == []
  {
    if items != [] {
      JoinNonEmpty(Wrap(items, PillOpen, PillClose));
    }
  }

  /** The anchor reads back to its text and target whenever the target has no quotation mark. */
  lemma BuildLinkRoundTrip(text: string, link: string)
    requires '"' !in link
    ensures ParseLink(BuildLink(text, link)) == Some((text, link))
  {
    var s := BuildLink(text, link);
    assert s == LinkHead + (link + LinkMiddle + text) + LinkTail;
    var body := link + LinkMiddle + text;
    assert s[..|LinkHead|] == LinkHead;
    assert s[|s| - |LinkTail|..] == LinkTail;
    assert s[|LinkHead|..|s| - |LinkTail|] == body;
    var q := IndexOf(body, '"');
    assert body[|link|] == '"';
    assert q == |link|;
    assert body[q..q + |LinkMiddle|] == LinkMiddle;
    assert body[q + |LinkMiddle|..] == text;
    assert body[..q] == link;
  }

  lemma BuildLinkNonEmpty(text: string, link: string)
    ensures BuildLink(text, link) != ""
  {
  }

  lemma {:induction false} JoinSeparated(xs: seq<string>, x: string, sep: string)
    requires xs != []
    ensures Join(xs + [x], sep) == Join(xs, sep) + sep + x
  {
    if |xs| == 1 {
      assert (xs + [x])[1..] == [x];
    } else {
      JoinSeparated(xs[1..], x, sep);
      assert (xs + [x])[1..] == xs[1..] + [x];
    }
  }

  /**
   * The contact line holds one link per provided field, in the order phone,
   * email, website, separated by the separator; it is empty exactly when no
   * field is provided.
   */
  lemma ContactLineShape(c: Contact)
    ensures ContactLine(c) == "" <==> c.phone == "" && c.email == "" && c.website == ""
    ensures |ContactLinks(c)| == (if c.phone != "" then 1 else 0) + (if c.email != "" then 1 else 0) + (if c.website != "" then 1 else 0)
    ensures c.phone != "" ==> ContactLinks(c)[0] == PhoneLink(c)
    ensures c.email != "" ==> ContactLinks(c)[if c.phone != "" then 1 else 0] == EmailLink(c)
    ensures c.website != "" ==> ContactLinks(c)[|ContactLinks(c)| - 1] == WebsiteLink(c)
    ensures c.phone != "" && c.email != "" && c.website != "" ==>
      ContactLine(c) == PhoneLink(c) + Separator + EmailLink(c) + Separator + WebsiteLink(c)
  {
    var links := ContactLinks(c);
    if links != [] {
      assert links[0] != "";
      if |links| == 1 {
        assert Join(links, Separator) == links[0];
      } else {
        assert Join(links, Separator) == links[0] + Separator + Join(links[1..], Separator);
      }
    }
    if c.phone != "" && c.email != "" && c.website != "" {
      JoinSeparated([PhoneLink(c)], EmailLink(c), Separator);
      JoinSeparated([PhoneLink(c), EmailLink(c)], WebsiteLink(c), Separator);
      assert links == [PhoneLink(c), EmailLink(c)] + [WebsiteLink(c)];
    }
  }
}
