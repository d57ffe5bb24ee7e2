/** Highlighting of the current page in the navigation bar (`initActiveNav`
    in the main page script): a link is marked active iff its `href` names the
    page the URL path ends with, or the path ends with `/` and the link points
    to `index.html`. */
module ActiveNav {

  /** `getAttribute('href')`: absent (null) or the attribute's text. */
  datatype Attr = Absent | Present(text: string)

  /** `path.split('/').pop()`: the text after the last `/` of `path`, or all of
      `path` when it has none. */
  function LastSegment(path: string): (seg: string)
    ensures '/' !in seg
    ensures |seg| <= |path| && seg == path[|path| - |seg|..]
    ensures |seg| < |path| ==> path[|path| - |seg| - 1] == '/'
  {
    if path == [] || path[|path| - 1] == '/' then []
    else LastSegment(path[..|path| - 1]) + [path[|path| - 1]]
  }

  /** The three properties above determine the last segment: any suffix
      without `/` that is all of `path` or follows a `/` is that segment. */
  lemma LastSegmentUnique(path: string, seg: string)
    requires '/' !in seg
    requires |seg| <= |path| && seg == path[|path| - |seg|..]
    requires |seg| < |path| ==> path[|path| - |seg| - 1] == '/'
    ensures seg == LastSegment(path)
  {
  }

  /** The rule applied to one link, given the current page name. */
  predicate IsCurrentLink(href: Attr, page: string) {
    href.Present? && (href.text == page || (page == [] && href.text == "index.html"))
  }

  /** On a named page, the links marked active all point to it; on a path
      ending in `/`, exactly the links to `index.html` (and any empty `href`)
      are active. A link without `href` is never active. */
  lemma CurrentLinks(path: string, href: Attr)
    ensures IsCurrentLink(href, LastSegment(path)) ==> href.Present?
    ensures LastSegment(path) != [] ==>
              (IsCurrentLink(href, LastSegment(path)) <==> href == Present(LastSegment(path)))
    ensures path != [] && path[|path| - 1] == '/' ==>
              (IsCurrentLink(href, LastSegment(path)) <==> href == Present("index.html") || href == Present(""))
  {
  }

  /** A navigation link and its `active` class. */
  class NavLink {
    const href: Attr
    var active: bool

    constructor (href: Attr, active: bool)
      ensures this.href == href && this.active == active
    {
      this.href := href;
      this.active := active;
    }
  }

  /** The loop of `initActiveNav`: visit every `.nav-link` and set or clear
      its `active` class by the rule for `currentPage`. */
  method MarkLinks(currentPage: string, links: seq<NavLink>)
    modifies set l | l in links
    ensures forall l | l in links :: l.active == IsCurrentLink(l.href, currentPage)
  {
    var i := 0;
    while i < |links|
      invariant i <= |links|
      invariant forall l | l in links[..i] :: l.active == IsCurrentLink(l.href, currentPage)
    {
      var link := links[i];
      if IsCurrentLink(link.href, currentPage) {
        link.active := true;
      } else {
        link.active := false;
      }
      assert links[..i + 1] == links[..i] + [link];
      i := i + 1;
    }
    assert links[..i] == links;
  }

  /** `initActiveNav`: take the page name from the URL path and mark the links. */
  method InitActiveNav(path: string, links: seq<NavLink>)
    modifies set l | l in links
    ensures forall l | l in links :: l.active == IsCurrentLink(l.href, LastSegment(path))
  {
    MarkLinks(LastSegment(path), links);
  }
}
