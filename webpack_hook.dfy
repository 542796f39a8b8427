/**
 * The `webpack` hook of the site configuration. The bundler hands it its
 * configuration object; the hook appends one rule that loads `.svg` files
 * through `@svgr/webpack`, and in a client production build (not `dev`, not
 * `isServer`) it merges four aliases into the resolver's alias table so that
 * React is replaced by Preact. It changes the object in place and returns
 * that same object.
 */
module WebpackHook {
  import opened Strings

  /**
   * A module rule: the file suffix its `test` matches, and its loaders.
   * Rules the bundler already had are kept as they are, whatever they are.
   */
  datatype Rule = SuffixRule(suffix: string, use: seq<string>) | OtherRule(id: nat)

  /** `{ test: /\.svg$/, use: ['@svgr/webpack'] }`: a literal ".svg" at the end of the path. */
  const SvgRule: Rule := SuffixRule(".svg", ["@svgr/webpack"])

  /** Whether `rule` applies to the file at `path`; only suffix rules are modelled. */
  predicate Matches(rule: Rule, path: string)
  {
    rule.SuffixRule? && EndsWith(path, rule.suffix)
  }

  /** The aliases that replace React with Preact. */
  const PreactAliases: map<string, string> := map[
    "react/jsx-runtime.js" := "preact/compat/jsx-runtime",
    "react" := "preact/compat",
    "react-dom/test-utils" := "preact/test-utils",
    "react-dom" := "preact/compat"
  ]

  /** `config.module.rules` after the push. */
  function WithSvgRule(rules: seq<Rule>): (r: seq<Rule>)
    ensures |r| == |rules| + 1
    ensures r[..|rules|] == rules
    ensures r[|rules|] == SvgRule
  {
    rules + [SvgRule]
  }

  /** Whether the aliases are merged: a client production build. */
  predicate ReplacesReact(dev: bool, isServer: bool)
  {
    !dev && !isServer
  }

  /** `config.resolve.alias` after the hook: `Object.assign(alias, PreactAliases)` when `ReplacesReact`. */
  function WithAliases(alias: map<string, string>, dev: bool, isServer: bool): (r: map<string, string>)
    ensures ReplacesReact(dev, isServer) ==> r.Keys == alias.Keys + PreactAliases.Keys
    ensures ReplacesReact(dev, isServer) ==>
              forall k :: k in PreactAliases ==> r[k] == PreactAliases[k]
    ensures ReplacesReact(dev, isServer) ==>
              forall k :: k in alias && k !in PreactAliases ==> r[k] == alias[k]
    ensures !ReplacesReact(dev, isServer) ==> r == alias
  {
    if ReplacesReact(dev, isServer) then alias + PreactAliases else alias
  }

  /** The rule the hook adds applies to SVG files and to nothing else. */
  lemma SvgRuleMatchesSvgOnly(path: string)
    ensures Matches(SvgRule, path) <==> |path| >= 4 && path[|path| - 4..] == ".svg"
  {
  }

  /** Merging the aliases a second time changes nothing. */
  lemma AliasesIdempotent(alias: map<string, string>, dev: bool, isServer: bool)
    ensures WithAliases(WithAliases(alias, dev, isServer), dev, isServer) == WithAliases(alias, dev, isServer)
  {
  }

  /**
   * In a client production build, React imports resolve to Preact whatever
   * the alias table held before; in every other build the table is not touched.
   */
  lemma ReactResolvesToPreact(alias: map<string, string>, dev: bool, isServer: bool)
    ensures ReplacesReact(dev, isServer) ==>
              && WithAliases(alias, dev, isServer)["react"] == "preact/compat"
              && WithAliases(alias, dev, isServer)["react-dom"] == "preact/compat"
    ensures !ReplacesReact(dev, isServer) ==> WithAliases(alias, dev, isServer) == alias
  {
  }

  /** Calling the hook twice adds the SVG rule twice: the push is not idempotent. */
  lemma {:induction false} RuleAddedOncePerCall(rules: seq<Rule>)
    ensures |WithSvgRule(WithSvgRule(rules))| == |rules| + 2
    ensures WithSvgRule(WithSvgRule(rules))[|rules|] == WithSvgRule(WithSvgRule(rules))[|rules| + 1] == SvgRule
  {
    var once := WithSvgRule(rules);
    assert WithSvgRule(once)[..|once|] == once;
  }

  /**
   * The part of the bundler's configuration object that the hook touches:
   * `config.module.rules` and `config.resolve.alias`.
   */
  class WebpackConfig {
    var rules: seq<Rule>
    var alias: map<string, string>

    constructor (rules: seq<Rule>, alias: map<string, string>)
      ensures this.rules == rules && this.alias == alias
    {
      this.rules := rules;
      this.alias := alias;
    }
  }

  /** The `webpack(config, { dev, isServer })` hook. */
  method Webpack(config: WebpackConfig, dev: bool, isServer: bool) returns (r: WebpackConfig)
    modifies config
    ensures r == config
    ensures config.rules == WithSvgRule(old(config.rules))
    ensures config.alias == WithAliases(old(config.alias), dev, isServer)
  {
    config.rules := config.rules + [SvgRule];
    if !dev && !isServer {
      config.alias := config.alias + PreactAliases;
    }
    return config;
  }
}
