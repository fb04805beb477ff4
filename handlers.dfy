/** The handler values the server passes around, and the helpers of
    handlers.go: `def`, the page `Context`, its `Clone` and the `set_env`
    template function.

    Go handlers and middlewares are closures; the model names them by
    symbolic terms, so that what a composition builds can be compared. */
module Handlers {
  import opened Common

  /** A `HandlerFunc`: a named handler, or `middleware` applied to `inner`. */
  datatype HandlerFunc = Func(name: string) | Wrap(middleware: string, inner: HandlerFunc)

  /** A value stored in a `template.FuncMap`, named. */
  datatype TemplateFunc = TemplateFunc(name: string)

  /** `def`: the first element of `value`, or `otherwise` when it is empty.
      `unwrap` in mux.go has the same body, and the model uses this function
      for both. */
  function Def<T>(value: seq<T>, otherwise: T): (r: T)
    ensures value == [] ==> r == otherwise
    ensures value != [] ==> r == value[0]
  {
    if |value| == 0 then otherwise else value[0]
  }

  /** `k` is the key of some pair of `keyValues`. */
  predicate Named(keyValues: seq<string>, k: string)
    requires |keyValues| % 2 == 0
    decreases |keyValues|
  {
    var n := |keyValues|;
    n > 0 && (keyValues[n - 2] == k || Named(keyValues[..n - 2], k))
  }

  /** The value of the last pair of `keyValues` whose key is `k`. */
  function LastValue(keyValues: seq<string>, k: string): string
    requires |keyValues| % 2 == 0 && Named(keyValues, k)
    decreases |keyValues|
  {
    var n := |keyValues|;
    if keyValues[n - 2] == k then keyValues[n - 1] else LastValue(keyValues[..n - 2], k)
  }

  /** The environment after the pairs of `keyValues` are written left to right. */
  function SetPairs(env: map<string, string>, keyValues: seq<string>): map<string, string>
    requires |keyValues| % 2 == 0
    decreases |keyValues|
  {
    if keyValues == [] then env
    else SetPairs(env[keyValues[0] := keyValues[1]], keyValues[2..])
  }

  /** Writing one more pair after `keyValues`. */
  lemma {:induction false} SetPairsSnoc(env: map<string, string>, keyValues: seq<string>, k: string, v: string)
    requires |keyValues| % 2 == 0
    ensures SetPairs(env, keyValues + [k, v]) == SetPairs(env, keyValues)[k := v]
    decreases |keyValues|
  {
    if keyValues == [] {
      assert keyValues + [k, v] == [k, v];
      assert [k, v][2..] == [];
    } else {
      assert (keyValues + [k, v])[2..] == keyValues[2..] + [k, v];
      SetPairsSnoc(env[keyValues[0] := keyValues[1]], keyValues[2..], k, v);
    }
  }

  /** `set_env`, writing the pairs from the first to the last, leaves every
      key that no pair names as it was, and gives every named key the value
      of the last pair that names it. */
  lemma {:induction false} SetPairsValue(env: map<string, string>, keyValues: seq<string>, k: string)
    requires |keyValues| % 2 == 0
    ensures var r := SetPairs(env, keyValues);
            && (k in r <==> k in env || Named(keyValues, k))
            && (Named(keyValues, k) ==> r[k] == LastValue(keyValues, k))
            && (!Named(keyValues, k) && k in env ==> r[k] == env[k])
    decreases |keyValues|
  {
    var n := |keyValues|;
    if n > 0 {
      var init := keyValues[..n - 2];
      assert keyValues == init + [keyValues[n - 2], keyValues[n - 1]];
      SetPairsSnoc(env, init, keyValues[n - 2], keyValues[n - 1]);
      SetPairsValue(env, init, k);
    }
  }

  /** The `Context` handed to pages. */
  class Context {
    var url: string
    var filename: string
    var funcs: map<string, TemplateFunc>
    var env: map<string, string>

    constructor (url: string, filename: string, funcs: map<string, TemplateFunc>, env: map<string, string>)
      ensures this.url == url && this.filename == filename && this.funcs == funcs && this.env == env
    {
      this.url := url;
      this.filename := filename;
      this.funcs := funcs;
      this.env := env;
    }

    /** `Clone`: a new context with the same url and file name and copies of
        both maps; later writes to either context do not reach the other. */
    method Clone() returns (c: Context)
      ensures fresh(c) && c != this
      ensures c.url == url && c.filename == filename && c.funcs == funcs && c.env == env
    {
      c := new Context(url, filename, funcs, env);
    }

    /** The `set_env` template function of `funcSetEnv`: writes each
        consecutive pair of `keyValues` into `env`, left to right, and
        returns the empty string. */
    method SetEnv(keyValues: seq<string>) returns (r: string)
      requires |keyValues| % 2 == 0
      modifies this
      ensures r == ""
      ensures env == SetPairs(old(env), keyValues)
      ensures url == old(url) && filename == old(filename) && funcs == old(funcs)
    {
      ghost var env0 := env;
      var i := 0;
      while i < |keyValues|
        invariant 0 <= i <= |keyValues| && i % 2 == 0
        invariant env == SetPairs(env0, keyValues[..i])
        invariant url == old(url) && filename == old(filename) && funcs == old(funcs)
        decreases |keyValues| - i
      {
        assert keyValues[..i + 2] == keyValues[..i] + [keyValues[i], keyValues[i + 1]];
        SetPairsSnoc(env0, keyValues[..i], keyValues[i], keyValues[i + 1]);
        env := env[keyValues[i] := keyValues[i + 1]];
        i := i + 2;
      }
      assert keyValues[..i] == keyValues;
      r := "";
    }
  }
}
