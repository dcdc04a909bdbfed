/**
  The plugin's options and the values its constructor derives from them
  (index.js lines 10-17), together with the environment allow-list test
  that decides whether a build is tidied at all (index.js line 76).

  Only the JavaScript values the options are documented to take are modelled:
  strings (where `''` is falsy), arrays of strings (always truthy, even when
  empty), regular expressions and rule objects (always truthy), and `undefined`.
*/
module Config {
  import opened Wrappers

  /** JavaScript truthiness of an optional string: `undefined` and `''` are falsy. */
  predicate Truthy(v: Option<string>)
  {
    v.Some? && v.value != ""
  }

  /** The JavaScript expression `v || fallback` for an optional string. */
  function OrElse(v: Option<string>, fallback: string): string
  {
    if Truthy(v) then v.value else fallback
  }

  /** The `allowedEnvs` option: a string (`'*'` for every environment), an array of environment names, or unset. */
  datatype AllowList = Str(s: string) | Arr(items: seq<string>) | Unset
  {
    /** JavaScript truthiness: an empty array is truthy, the empty string is not. */
    predicate Truthy()
    {
      match this
      case Str(s) => s != ""
      case Arr(_) => true
      case Unset => false
    }

    /** JavaScript `this === s` for a string primitive `s`: only a string can be strictly equal to it. */
    predicate StrictEquals(s: string)
    {
      Str? && this.s == s
    }
  }

  /**
    The condition at index.js line 76, written as the source writes it:
    `!a || a && (a === '*' || Array.isArray(a) && a.includes(env) || a === env)`.
    Its contract is the truth table: a falsy list lets every environment through,
    `'*'` lets every environment through, another string lets only the equal
    environment through, and an array lets through exactly its members (so an
    empty array rejects every environment).
  */
  predicate Allowed(a: AllowList, env: string)
    ensures Allowed(a, env) <==>
      match a
      case Unset => true
      case Str(s) => s == "" || s == "*" || s == env
      case Arr(items) => env in items
  {
    !a.Truthy() || (a.Truthy() && (a.StrictEquals("*") || (a.Arr? && env in a.items) || a.StrictEquals(env)))
  }

  /** `options.allowedEnvs || '*'` (index.js line 13). */
  function AllowListOrStar(a: AllowList): (r: AllowList)
    ensures r.Truthy()
    ensures a.Truthy() ==> r == a
    ensures !a.Truthy() ==> r == Str("*")
  {
    if a.Truthy() then a else Str("*")
  }

  /**
    After the constructor's defaulting, the falsy branch of the gate is dead:
    tidying proceeds exactly when no list was configured, the list is `'*'`,
    the list is the current environment's name, or the list is an array
    holding that name.
  */
  lemma ConfiguredGate(a: AllowList, env: string)
    ensures Allowed(AllowListOrStar(a), env) <==>
      !a.Truthy() || a == Str("*") || a == Str(env) || (a.Arr? && env in a.items)
  {
  }

  /** `s` ends with `suffix`. */
  predicate EndsWith(s: string, suffix: string)
  {
    |suffix| <= |s| && s[|s| - |suffix|..] == suffix
  }

  /** The `test` option: the default `/\.html$/` or any user-supplied pattern, seen as a predicate on paths. */
  datatype Pattern = HtmlSuffix | Custom(test: string -> bool)

  /** `pattern.test(path)`; `/\.html$/` has no multiline flag, so `$` is the end of the path. */
  predicate Matches(p: Pattern, path: string)
  {
    match p
    case HtmlSuffix => EndsWith(path, ".html")
    case Custom(test) => test(path)
  }

  /** A value in the rule object handed to the formatter, which the plugin never inspects. */
  datatype RuleValue = Flag(b: bool) | Number(n: int) | Text(t: string)

  type Rules = map<string, RuleValue>

  /** `{ ocd: true }` (index.js line 16). */
  function DefaultRules(): Rules
  {
    map["ocd" := Flag(true)]
  }

  /**
    The constructor's `options` argument (`{}` by default: every field unset).
    `verbose` only switches logging on and is not modelled.
  */
  datatype Options = Options(
    env: Option<string>,
    allowedEnvs: AllowList,
    input: Option<string>,
    output: Option<string>,
    test: Option<Pattern>,
    encoding: Option<string>,
    rules: Option<Rules>)

  /** `new TidyJigsawOutput()` with no options. */
  function NoOptions(): Options
  {
    Options(None, Unset, None, None, None, None, None)
  }
}
