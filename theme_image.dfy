/**
 * The blog's `ThemeImage` component: an image that exists in a light and a
 * dark variant. It renders both and hides one of them with the `hidden`
 * class, according to one piece of state, `showLight`, which starts false
 * and is set from the selected theme (`useTheme().theme`, which may be
 * "system") by an effect that runs after mounting and whenever the theme changes.
 *
 * Despite its name, `showLight` being true is what makes the DARK-source
 * image visible: it is set to `theme === 'dark'`.
 */
module ThemeImageComponent {
  import opened Wrappers

  /** Which of the two images a reader sees. */
  datatype Variant = Light | Dark

  /**
   * A rendered `next/image` element, as its prop map. The props are written
   * `{...rest} src=… className=…`, so `src` and `className` override the
   * caller's.
   */
  type Image = map<string, string>

  /** The caller's props after `srcLight` and `srcDark` are taken out; `src` is not among them. */
  type Rest = m: map<string, string> | "src" !in m witness map[]

  /** `useState(false)` */
  const InitialShowLight: bool := false

  /** The class string `${cond ? 'hidden' : ''}` for an image that is hidden when `hidden` holds. */
  function ClassName(hidden: bool): string
  {
    if hidden then "hidden" else ""
  }

  /**
   * The effect body: the new `showLight` when the theme becomes `theme` in
   * state `showLight`. The previous state plays no part.
   */
  function Step(showLight: bool, theme: Option<string>): bool
  {
    theme == Some("dark")
  }

  /**
   * The value of `showLight` after the effect has run once for each theme in
   * `themes`, in order, starting from the initial state.
   */
  function ShowLightAfter(themes: seq<Option<string>>): bool
  {
    if themes == [] then InitialShowLight
    else Step(ShowLightAfter(themes[..|themes| - 1]), themes[|themes| - 1])
  }

  /** The variant that is visible in state `showLight`. */
  function Visible(showLight: bool): Variant
  {
    if showLight then Dark else Light
  }

  /** The two images the component returns, light-source first. */
  function Render(showLight: bool, srcLight: string, srcDark: string, rest: Rest): (images: seq<Image>)
    ensures |images| == 2
    ensures forall n :: 0 <= n < 2 ==> images[n].Keys == rest.Keys + {"src", "className"}
    ensures images[0]["src"] == srcLight && images[1]["src"] == srcDark
    // both images receive the same remaining props, except a caller's `className`
    ensures forall n, k :: 0 <= n < 2 && k in rest && k != "className" ==> images[n][k] == rest[k]
    // exactly one of the two images is without the `hidden` class
    ensures images[0]["className"] in {"", "hidden"} && images[1]["className"] in {"", "hidden"}
    ensures (images[0]["className"] == "") != (images[1]["className"] == "")
    // and it is the variant `Visible` names
    ensures images[0]["className"] == "" <==> Visible(showLight) == Light
    ensures images[1]["className"] == "" <==> Visible(showLight) == Dark
  {
    [ rest + map["src" := srcLight, "className" := ClassName(showLight)],
      rest + map["src" := srcDark, "className" := ClassName(!showLight)] ]
  }

  /** The state depends on nothing but the last theme seen. */
  lemma {:induction false} LastThemeWins(earlier: seq<Option<string>>, t: Option<string>)
    ensures ShowLightAfter(earlier + [t]) == (t == Some("dark"))
  {
    var h := earlier + [t];
    assert h[..|h| - 1] == earlier && h[|h| - 1] == t;
  }

  /** In every state the dark-source image is visible exactly when the last theme seen was "dark". */
  lemma {:induction false} ShowLightIsLastTheme(themes: seq<Option<string>>)
    ensures ShowLightAfter(themes) == (themes != [] && themes[|themes| - 1] == Some("dark"))
  {
    if themes != [] {
      var n := |themes|;
      assert themes == themes[..n - 1] + [themes[n - 1]];
      LastThemeWins(themes[..n - 1], themes[n - 1]);
    }
  }

  /** Before any theme arrives the light-source image is shown and the dark-source one hidden. */
  lemma InitialRenderShowsLight(srcLight: string, srcDark: string, rest: Rest)
    ensures Render(ShowLightAfter([]), srcLight, srcDark, rest)[0]["className"] == ""
    ensures Render(ShowLightAfter([]), srcLight, srcDark, rest)[1]["className"] == "hidden"
  {
  }

  /** Two histories that end in the same theme leave the same state. */
  lemma SameLastThemeSameState(h1: seq<Option<string>>, h2: seq<Option<string>>, t: Option<string>)
    ensures ShowLightAfter(h1 + [t]) == ShowLightAfter(h2 + [t])
  {
    LastThemeWins(h1, t);
    LastThemeWins(h2, t);
  }

  /** Seeing the same theme a second time changes nothing. */
  lemma RepeatedThemeIsIdempotent(h: seq<Option<string>>, t: Option<string>)
    ensures ShowLightAfter(h + [t] + [t]) == ShowLightAfter(h + [t])
  {
    LastThemeWins(h, t);
    LastThemeWins(h + [t], t);
  }

  /** Only the theme "dark" makes the dark-source image visible; undefined, "light" and "system" do not. */
  lemma OnlyDarkShowsDark(h: seq<Option<string>>, t: Option<string>)
    ensures Visible(ShowLightAfter(h + [t])) == Dark <==> t == Some("dark")
    ensures t == None || t == Some("light") || t == Some("system") ==>
              Visible(ShowLightAfter(h + [t])) == Light
  {
    LastThemeWins(h, t);
  }

  /** One mounted `ThemeImage`: its props and its `showLight` state. */
  class ThemeImage {
    const srcLight: string
    const srcDark: string
    const rest: Rest
    var showLight: bool
    /** The themes the effect has seen so far, oldest first. */
    ghost var themes: seq<Option<string>>

    ghost predicate Valid()
      reads this
    {
      showLight == ShowLightAfter(themes)
    }

    /** Mounting: no theme has been seen and the light-source image is the visible one. */
    constructor (srcLight: string, srcDark: string, rest: Rest)
      ensures Valid() && themes == []
      ensures this.srcLight == srcLight && this.srcDark == srcDark && this.rest == rest
      ensures !showLight && Visible(showLight) == Light
    {
      this.srcLight := srcLight;
      this.srcDark := srcDark;
      this.rest := rest;
      showLight := InitialShowLight;
      themes := [];
    }

    /** The effect: it runs once after mounting and again whenever `theme` changes. */
    method OnTheme(theme: Option<string>)
      requires Valid()
      modifies this
      ensures Valid() && themes == old(themes) + [theme]
      ensures showLight == (theme == Some("dark"))
    {
      showLight := theme == Some("dark");
      themes := themes + [theme];
      LastThemeWins(old(themes), theme);
    }

    /** What the component renders in its current state. */
    function Rendered(): (images: seq<Image>)
      reads this
      ensures |images| == 2
      ensures forall n :: 0 <= n < 2 ==> images[n].Keys == rest.Keys + {"src", "className"}
      ensures images[0]["src"] == srcLight && images[1]["src"] == srcDark
      ensures (images[0]["className"] == "") != (images[1]["className"] == "")
      ensures Valid() ==>
                (images[1]["className"] == "" <==> themes != [] && themes[|themes| - 1] == Some("dark"))
    {
      ShowLightIsLastTheme(themes);
      Render(showLight, srcLight, srcDark, rest)
    }
  }
}
