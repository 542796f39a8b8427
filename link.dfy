/**
 * The blog's `CustomLink` component: the renderer that every Markdown link
 * goes through. It looks at the link's `href` and picks one of three
 * renderings: client-side navigation for site paths, a plain anchor for
 * in-page fragments, and a new-tab anchor with opener protection for
 * everything else.
 *
 * A rendered element is abstracted as its tag and its prop map. JSX props
 * are evaluated left to right and a later prop with the same name wins,
 * which is exactly Dafny's right-biased map union `a + b`. A prop whose
 * value is `undefined` is still a key of the map and still overrides an
 * earlier one; React then leaves that attribute out of the DOM.
 */
module LinkComponent {
  import opened Wrappers
  import opened Strings

  /** The three ways a link can be rendered. */
  datatype LinkKind = Internal | Anchor | External

  /**
   * A prop value: `undefined`, a string, a ref object handed in by the
   * caller, or the ref object the component creates itself with `createRef()`.
   */
  datatype Value = Undefined | Str(s: string) | CallerRef(id: nat) | CreatedRef

  /** The caller's props after `href` has been destructured out of them. */
  type Rest = m: map<string, Value> | "href" !in m witness map[]

  /** `next/link`'s `Link` component, or a plain `<a>` element. */
  datatype Tag = NextLink | PlainAnchor

  datatype Element = Element(tag: Tag, props: map<string, Value>)

  /** The new-tab defaults the external branch writes before the caller's props. */
  const Target: string := "_blank"
  const Rel: string := "noopener noreferrer"

  /**
   * `href && href.startsWith('/')`, then `href && href.startsWith('#')`;
   * an undefined or empty `href` is falsy and falls through to external.
   */
  function Classify(href: Option<string>): LinkKind
  {
    if href.Some? && href.value != "" && StartsWith(href.value, "/") then Internal
    else if href.Some? && href.value != "" && StartsWith(href.value, "#") then Anchor
    else External
  }

  /** The `href={href}` prop: always written, with the value `undefined` when there is no href. */
  function HrefProp(href: Option<string>): map<string, Value>
  {
    map["href" := if href.Some? then Str(href.value) else Undefined]
  }

  /** The element `CustomLink` returns for `href` and the remaining props `rest`. */
  function CustomLink(href: Option<string>, rest: Rest): (e: Element)
    // the framework link is used exactly for internal hrefs
    ensures e.tag == NextLink <==> Classify(href) == Internal
    // exactly these props are emitted
    ensures e.props.Keys == rest.Keys + {"href"}
                            + (if e.tag == NextLink then {"ref"} else {})
                            + (if Classify(href) == External then {"target", "rel"} else {})
    // the href reaches the element unchanged, `undefined` included
    ensures e.props["href"] == (if href.Some? then Str(href.value) else Undefined)
    // the caller's props reach the element and override the defaults,
    // except `ref` in the internal branch, which the component sets last
    ensures forall k :: k in rest && !(e.tag == NextLink && k == "ref") ==>
              k in e.props && e.props[k] == rest[k]
    ensures e.tag == NextLink ==> e.props["ref"] == CreatedRef
    // the new-tab defaults are present in the external branch only
    ensures Classify(href) == External ==>
              && e.props["target"] == (if "target" in rest then rest["target"] else Str(Target))
              && e.props["rel"] == (if "rel" in rest then rest["rel"] else Str(Rel))
  {
    match Classify(href)
    case Internal =>
      Element(NextLink, HrefProp(href) + rest + map["ref" := CreatedRef])
    case Anchor =>
      Element(PlainAnchor, HrefProp(href) + rest)
    case External =>
      Element(PlainAnchor, map["target" := Str(Target), "rel" := Str(Rel)] + HrefProp(href) + rest)
  }

  /** Classification looks at nothing but the first character of a non-empty href. */
  lemma ClassifyByFirstChar(href: Option<string>)
    ensures Classify(href) ==
              if href.None? || href.value == "" then External
              else if href.value[0] == '/' then Internal
              else if href.value[0] == '#' then Anchor
              else External
  {
    if href.Some? {
      StartsWithChar(href.value, '/');
      StartsWithChar(href.value, '#');
    }
  }

  /** Two hrefs that agree on their first character are classified alike. */
  lemma ClassifySameFirstChar(s: string, t: string)
    requires s != [] && t != [] && s[0] == t[0]
    ensures Classify(Some(s)) == Classify(Some(t))
  {
    ClassifyByFirstChar(Some(s));
    ClassifyByFirstChar(Some(t));
  }

  /** An undefined href, the empty string, absolute URLs and relative paths are all external. */
  lemma ExternalCases(s: string)
    requires s == "" || (s[0] != '/' && s[0] != '#')
    ensures Classify(None) == External
    ensures Classify(Some(s)) == External
  {
    ClassifyByFirstChar(Some(s));
  }

  /**
   * An external link rendered without caller-supplied `target` or `rel`
   * opens in a new tab with no opener and no referrer.
   */
  lemma ExternalIsSafeByDefault(href: Option<string>, rest: Rest)
    requires Classify(href) == External
    requires "target" !in rest && "rel" !in rest
    ensures CustomLink(href, rest).tag == PlainAnchor
    ensures CustomLink(href, rest).props["target"] == Str("_blank")
    ensures CustomLink(href, rest).props["rel"] == Str("noopener noreferrer")
  {
  }

  /**
   * A caller that passes `rel={undefined}` (or `target={undefined}`) to an
   * external link overrides the default with `undefined`, so the rendered
   * `<a>` carries no `rel` (or `target`) attribute at all.
   */
  lemma UndefinedOverridesDefaults(href: Option<string>, rest: Rest)
    requires Classify(href) == External
    ensures "rel" in rest && rest["rel"] == Undefined ==> CustomLink(href, rest).props["rel"] == Undefined
    ensures "target" in rest && rest["target"] == Undefined ==>
              CustomLink(href, rest).props["target"] == Undefined
  {
  }

  /**
   * A protocol-relative URL `//host/…` starts with '/', so it is classified
   * internal: it is rendered through `next/link` and gets neither the
   * new-tab `target` nor the opener-protecting `rel` from the component.
   */
  lemma ProtocolRelativeIsInternal(host: string, rest: Rest)
    ensures Classify(Some("//" + host)) == Internal
    ensures CustomLink(Some("//" + host), rest).tag == NextLink
    ensures "target" in CustomLink(Some("//" + host), rest).props <==> "target" in rest
    ensures "rel" in CustomLink(Some("//" + host), rest).props <==> "rel" in rest
  {
    ClassifyByFirstChar(Some("//" + host));
  }

  /** An anchor link gets no `target` or `rel` unless the caller gives them. */
  lemma AnchorHasNoDefaults(href: Option<string>, rest: Rest)
    requires Classify(href) == Anchor
    ensures CustomLink(href, rest).tag == PlainAnchor
    ensures CustomLink(href, rest).props == HrefProp(href) + rest
    ensures "target" in CustomLink(href, rest).props <==> "target" in rest
    ensures "rel" in CustomLink(href, rest).props <==> "rel" in rest
  {
  }
}
