# A verified model of a personal blog's link, theme-image and site-configuration logic

The blog is a statically generated Next.js site. Almost all of it is markup,
but three pieces make decisions, and those pieces are modelled here in Dafny:

- **`CustomLink`** (`link.dfy`, module `LinkComponent`): every Markdown link is
  rendered through this component. An `href` starting with `/` becomes a
  client-side `next/link` navigation, one starting with `#` a plain in-page
  anchor, and anything else an external link with `target="_blank"` and
  `rel="noopener noreferrer"`. That includes an undefined or empty `href`.
  A rendered element is modelled as its tag and its prop map. JSX props
  written later override earlier ones, and Dafny's right-biased map union
  `a + b` does the same. So the caller's props override the external
  defaults, and the component's own `ref` overrides the caller's in the
  internal branch. A prop whose value is `undefined` is a key like any
  other (the value `Undefined`) and overrides just the same; React leaves
  such an attribute out of the DOM.
- **`ThemeImage`** (`theme_image.dfy`, module `ThemeImageComponent`): an image
  with a light and a dark source. Both images are rendered, and exactly one
  has the `hidden` class. The choice is driven by one boolean, `showLight`.
  It starts `false` and is set to `theme == "dark"` by an effect that React
  runs once after mounting and again whenever the theme changes. `theme` is
  the selected theme of `next-themes`, which may be `"system"`. The component is a class with that field and an `OnTheme` method.
  A ghost history of the themes seen ties the field to the pure function
  `ShowLightAfter`. Despite its name, `showLight == true` makes the
  *dark*-source image visible; the model follows the behaviour, not the name.
- **`next.config.js`**, in four modules:
  - `ContentSecurityPolicy` (`content_security_policy.dfy`): the policy
    template and the header value, which is the template with every line
    feed deleted.
  - `SecurityHeaders` (`security_headers.dfy`): the seven-entry header table
    and `headers()`. It also holds the Strict-Transport-Security value read
    against the `max-age` / `includeSubDomains` directive syntax of
    section 6.1 of RFC 6797.
  - `Redirects` (`redirects.dfy`): the redirect table and a lookup over it.
  - `WebpackHook` (`webpack_hook.dfy`): the `webpack` hook. It updates the
    bundler's configuration object in place, so it is a method with
    `modifies`, specified by two pure functions.

The redirect table is kept exactly as written. Two destinations have no
leading `/` (next.config.js:118, next.config.js:128). One starts with `/og/`
where all the others start with `/blog/` (next.config.js:123). The model does
not claim that destinations are absolute, and `Redirects.SomeDestinationsAreUnusual`
records these three entries.

`showLight` starts `false`, so the light-source image is visible and the
dark-source one hidden from the first render, before any theme is known;
see `ThemeImageComponent.InitialRenderShowsLight`.

Two behaviours of `CustomLink` follow from the code as written and are
stated as lemmas. A protocol-relative URL such as `//host/x` starts with
`/`, so it is classified internal and rendered through `next/link`,
without the new-tab `target` and the opener-protecting `rel`
(`LinkComponent.ProtocolRelativeIsInternal`). And a caller that passes
`rel={undefined}` to an external link replaces the default `rel`, so the
rendered `<a>` has no `rel` attribute (`LinkComponent.UndefinedOverridesDefaults`).

Some long strings are written in Dafny as pieces joined with `+`, split only
where the configuration's own structure has a boundary. A long policy line
is split into one piece per source it lists, and the longer hosts are named
constants. A long redirect path is split into its series slug and article
slug, joined by `-` in the old path and by `/` in the new one. The HSTS
value is split into `max-age=`, the number and `; includeSubDomains`. Each
joined value is the same string as the one in the configuration.

## Model

| member | source | states |
|---|---|---|
| `LinkComponent.Classify` | components/Link.tsx:9-10 | The two tests `href && href.startsWith('/')` and `href && href.startsWith('#')`, in order; an undefined or empty href falls through to external. Its behaviour is stated by `ClassifyByFirstChar`. |
| `LinkComponent.HrefProp` | components/Link.tsx:13-20 | The `href={href}` prop that each branch writes before the caller's props. Its behaviour is stated by `CustomLink`'s `href` ensures: the key is always present, with the value `undefined` when there is no href, and otherwise the href unchanged. |
| `LinkComponent.CustomLink` | components/Link.tsx:5-21 | `next/link` is used exactly when the href is internal. The emitted props are the caller's props, plus `href`, plus `ref` in the internal branch, plus `target`/`rel` in the external branch. The href arrives unchanged, `undefined` included. Every caller prop reaches the element, except `ref` in the internal branch, where the component's own ref wins. In the external branch `target`/`rel` default to `_blank` / `noopener noreferrer` unless the caller supplies them. |
| `LinkComponent.ClassifyByFirstChar` | components/Link.tsx:9-10 | Undefined or empty hrefs are external. Otherwise `/` as first character means internal, `#` means anchor, and anything else external. The three classes are exclusive and exhaustive. |
| `LinkComponent.ClassifySameFirstChar` | components/Link.tsx:9-10 | Two non-empty hrefs with the same first character are classified alike. |
| `LinkComponent.ExternalCases` | components/Link.tsx:9-20 | Undefined, `""`, absolute URLs and relative paths such as `blog/x` are all external. |
| `LinkComponent.ExternalIsSafeByDefault` | components/Link.tsx:20 | Without caller-supplied `target`/`rel`, an external link is a plain `<a>` with `target="_blank"` and `rel="noopener noreferrer"`. |
| `LinkComponent.UndefinedOverridesDefaults` | components/Link.tsx:20 | In an external link, a caller's `rel={undefined}` or `target={undefined}` replaces the default, so the rendered `<a>` lacks that attribute. |
| `LinkComponent.ProtocolRelativeIsInternal` | components/Link.tsx:9-13 | A protocol-relative href `//host…` is classified internal and rendered through `next/link`; it has `target`/`rel` only when the caller gives them. |
| `LinkComponent.AnchorHasNoDefaults` | components/Link.tsx:16-17 | An anchor link is a plain `<a>` carrying only the href and the caller's props. It has `target`/`rel` exactly when the caller gave them. |
| `ThemeImageComponent.Step` | components/ThemeImage.tsx:14-16 | The effect body `setShowLight(theme === 'dark')`: the new state ignores the old one. `LastThemeWins` states what follows from it. |
| `ThemeImageComponent.ShowLightAfter` | components/ThemeImage.tsx:10-16 | The state after the effect has run for each theme of a history, from `useState(false)`. `ShowLightIsLastTheme` states it in closed form. |
| `ThemeImageComponent.Render` | components/ThemeImage.tsx:18-23 | Two images are rendered. The first has `srcLight` and the second `srcDark`. Both get the caller's remaining props. The component's own `src` and `className` are written after them, so they override a caller's `className`. Each class string is `""` or `"hidden"`, and exactly one image lacks `hidden`: the light-source one when `showLight` is false, the dark-source one when it is true. |
| `ThemeImageComponent.LastThemeWins` | components/ThemeImage.tsx:14-16 | After a theme update with `t`, `showLight == (t == "dark")`, whatever came before. |
| `ThemeImageComponent.ShowLightIsLastTheme` | components/ThemeImage.tsx:10-16 | In every state, `showLight` holds exactly when some theme was seen and the last one was `"dark"`. It is false initially. |
| `ThemeImageComponent.InitialRenderShowsLight` | components/ThemeImage.tsx:10-21 | Before any theme arrives, the light-source image is shown and the dark-source image has `hidden`. |
| `ThemeImageComponent.SameLastThemeSameState` | components/ThemeImage.tsx:14-16 | Two theme histories that end in the same theme give the same state. |
| `ThemeImageComponent.RepeatedThemeIsIdempotent` | components/ThemeImage.tsx:14-16 | Seeing the same theme twice leaves the state as seeing it once. |
| `ThemeImageComponent.OnlyDarkShowsDark` | components/ThemeImage.tsx:14-21 | The dark-source image becomes visible only for the theme `"dark"`. Undefined, `"light"` and `"system"` show the light-source image. |
| `ThemeImageComponent.ThemeImage.constructor` | components/ThemeImage.tsx:9-12 | A mounted component holds its two sources and remaining props. It has seen no theme, and `showLight` is false, so the light-source image is visible. |
| `ThemeImageComponent.ThemeImage.OnTheme` | components/ThemeImage.tsx:14-16 | The effect sets `showLight` to `theme == "dark"` and appends the theme to the history. It keeps the invariant that the field equals `ShowLightAfter(history)`. |
| `ThemeImageComponent.ThemeImage.Rendered` | components/ThemeImage.tsx:18-23 | In every state exactly one of the two images is visible. When the invariant holds, the dark-source image is the visible one exactly when the last theme seen was `"dark"`. |
| `ContentSecurityPolicy.Template` | next.config.js:8-18 | The policy template: a line feed after the backtick, then the nine directive lines, each followed by a line feed. `HeaderValueIsDirectivesRunTogether` states the value derived from it. |
| `ContentSecurityPolicy.StripNewlines` | next.config.js:24 | The result of `replace(/\n/g, '')` contains no line feed. |
| `ContentSecurityPolicy.StripKeepsOtherCharacters` | next.config.js:24 | Every character except the line feed is kept, exactly as often as it occurs. The length drops by the number of line feeds. |
| `ContentSecurityPolicy.StripKeepsOrder` | next.config.js:24 | The kept characters stay in their original order: the result is a subsequence of the input. |
| `ContentSecurityPolicy.StripAppend` | next.config.js:24 | Deleting line feeds from a concatenation is the same as deleting them from each part. |
| `ContentSecurityPolicy.StripWithoutNewlines` | next.config.js:24 | A string with no line feed is left unchanged. |
| `ContentSecurityPolicy.StripIdempotent` | next.config.js:24 | Deleting line feeds a second time changes nothing. |
| `ContentSecurityPolicy.StripBlock` | next.config.js:8-18 | Deleting the line feeds from lines that end in one runs the lines together. |
| `ContentSecurityPolicy.DirectivesHaveNoNewline` | next.config.js:9-17 | None of the nine policy lines contains a line feed of its own. |
| `ContentSecurityPolicy.HeaderValue` | next.config.js:22-25 | The Content-Security-Policy header value contains no line feed. |
| `ContentSecurityPolicy.HeaderValueIsDirectivesRunTogether` | next.config.js:8-24 | The header value is exactly the nine policy lines, each with its indentation, run together with nothing between them. |
| `SecurityHeaders.Table` | next.config.js:20-56 | The seven `securityHeaders` entries, in order; `TableKeysDistinct` and `HeadersApplyTableToAllPaths` state their properties. |
| `SecurityHeaders.Headers` | next.config.js:68-75 | The `headers()` hook: one rule for `/:path*` carrying the table, as `HeadersApplyTableToAllPaths` states. |
| `SecurityHeaders.TableKeysDistinct` | next.config.js:20-56 | The `securityHeaders` table has seven entries with pairwise-distinct keys. |
| `SecurityHeaders.HeadersApplyTableToAllPaths` | next.config.js:68-75 | `headers()` returns exactly one rule, for `/:path*`, carrying the whole table. The frame, sniffing, policy and HSTS headers have their configured values. The policy value has no line feed. HSTS parses to a one-year max-age with `includeSubDomains`. |
| `SecurityHeaders.HstsRoundTrip` | next.config.js:49 | Every HSTS policy reads back from its `max-age=N[; includeSubDomains]` spelling. |
| `SecurityHeaders.HstsParseIsCanonical` | next.config.js:49 | Whatever the HSTS parser accepts is exactly the canonical spelling of the policy it returns. With `HstsRoundTrip`, parsing and formatting are inverse on canonical spellings, and every other string is rejected. |
| `SecurityHeaders.HstsValueIsOneYear` | next.config.js:46-50 | The site's HSTS value is the canonical spelling of a policy with `max-age` of one year (31536000 = 365·24·60·60 seconds) and `includeSubDomains`. It parses back to that policy. |
| `Redirects.Table` | next.config.js:94-131 | The seven redirects of `redirects()`, in order, destinations as written; the lemmas below state their properties. |
| `Redirects.Lookup` | next.config.js:94-131 | Looking up a path finds nothing exactly when no entry has that source. Otherwise it returns the first entry whose source is that path. |
| `Redirects.LookupFindsEntry` | next.config.js:96-130 | When sources are distinct, looking up an entry's source returns that entry. |
| `Redirects.AllPermanent` | next.config.js:94-131 | All seven redirects are permanent. |
| `Redirects.TableSourcesDistinct` | next.config.js:96-130 | No two redirects share a source, so lookup by source is a function. |
| `Redirects.TableDestinationsAreNotSources` | next.config.js:96-130 | No destination equals any source. |
| `Redirects.NoSecondRedirect` | next.config.js:96-130 | In a table whose destinations are not sources, the path a redirect leads to is not redirected again. |
| `Redirects.SiteRedirects` | next.config.js:94-131 | For the site's table: every source is redirected, permanently, to its own entry. Any other path is not redirected. A redirect never chains into another. |
| `Redirects.SomeDestinationsAreUnusual` | next.config.js:116-130 | Two destinations do not start with `/`. A third starts with `/` but not with `/blog/`. |
| `WebpackHook.WithSvgRule` | next.config.js:77-80 | The rule list grows by exactly one. The existing rules are unchanged and first, and the new last rule is the SVG rule. |
| `WebpackHook.WithAliases` | next.config.js:82-90 | Consider a client production build, that is, not `dev` and not `isServer`. There the four Preact aliases are merged in: they win over earlier values, and all other aliases are kept. In any other build the alias table is unchanged. |
| `WebpackHook.Webpack` | next.config.js:76-93 | The hook changes the configuration object in place and returns that same object. Its rules become `WithSvgRule` of the old rules, and its aliases become `WithAliases` of the old aliases. |
| `WebpackHook.RuleAddedOncePerCall` | next.config.js:77-80 | Each call appends one SVG rule, so two calls append two. |
| `WebpackHook.SvgRuleMatchesSvgOnly` | next.config.js:78 | The added rule applies exactly to paths ending in `.svg`. |
| `WebpackHook.AliasesIdempotent` | next.config.js:84-89 | Merging the aliases a second time changes nothing. |
| `WebpackHook.ReactResolvesToPreact` | next.config.js:82-90 | In a client production build, `react` and `react-dom` resolve to `preact/compat`, whatever the table held before. In other builds the table is untouched. |

## Left out

- `withContentlayer`, `withBundleAnalyzer` and the `ANALYZE` environment read (next.config.js:1-5, 61-62) are left out. They are external libraries and environment input.
- The static configuration values `reactStrictMode`, `pageExtensions` and `eslint.dirs` (next.config.js:63-67) are left out. They are data handed to the framework and carry no logic.
- `headers()` and `redirects()` are `async`. The model returns their values directly.
- How the framework matches `/:path*` and applies headers and redirects at request time is framework code and is not modelled.
- Redirects.Lookup: a path is matched against a source by exact, case-sensitive string equality. This is a simplification of the framework's matcher, which has its own rules (parameters, case sensitivity) that the model does not capture.
- React rendering and hook scheduling are not modelled. Elements are prop maps, and the effect is the `OnTheme` method. The first `OnTheme` call stands for the run React makes after mounting, with the initial theme, whether or not it has changed. Each later call stands for a run after a theme change.
- WebpackHook.WithAliases: the alias table is a map, so the key order that `Object.assign` keeps is not modelled. Existing keys keep their place and the four new keys are appended in the order written (next.config.js:84-89). A bundler that tries aliases in order could depend on that order.
- `next-themes`' `useTheme` is an input: the theme arrives as an optional string.
- `next/link`, `next/image` and `createRef` internals are not modelled. The ref the component creates is the single value `CreatedRef`, so two refs are not told apart.
- WebpackHook.SvgRuleMatchesSvgOnly: the regular expression `/\.svg$/` is modelled as a literal `.svg` suffix. Rules the bundler already had are opaque values and are never matched.
- SecurityHeaders.HstsRoundTrip: the parser accepts only the canonical spelling the site uses, `max-age=N` with no superfluous leading zero, optionally followed by `; includeSubDomains`. Section 6.1 of RFC 6797 also allows case-insensitive directive names, other whitespace around `;` and any directive order.
- The Markdown component map (components/MDXComponents.tsx) is left out. It is a static name-to-component record plus a runtime `require` of a layout. Its one behavioural fact, that `a` is rendered by `CustomLink`, is what `LinkComponent` models.
- The series header and resource components under components/bicep, components/bit-bucket and components/modular-monolith are left out. They are static markup with no logic.
- Tag pages, tag slugging, tag counting and post sorting (app/tags/[tag]/page.tsx) are left out. They are built from library calls whose code is not part of this model.
