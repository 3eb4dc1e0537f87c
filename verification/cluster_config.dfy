/**
 * Loading of the cluster descriptors (`load_clusters` in cluster_config.py).
 *
 * The configuration file is given as its parsed YAML document, or `None`
 * when the file does not exist; the process environment is a map from
 * variable names to values. Every exception the loader can raise is a
 * distinct `LoadError`.
 */
module ClusterConfig {
  import opened Wrappers
  import opened Text
  import opened Yaml

  /** The exceptions `load_clusters` raises. */
  datatype LoadError =
      /** ValueError: the document is neither a list nor a dict holding a list under `clusters`. */
    | InvalidFormat
      /** AttributeError: an entry that is not a dict has no `.get`. */
    | EntryWithoutGet
      /** ValueError: the entry's `token_env` is missing or falsy; carries the entry's `name` (or `None`). */
    | MissingTokenEnv(name: Value)
      /** TypeError: `os.environ.get` was called with a name that is not a string. */
    | EnvNameNotString(envName: Value)
      /** AttributeError: `token_env` names an unset variable, so `.strip()` is applied to `None`. */
    | TokenVariableUnset(tokenEnv: string)
      /** RuntimeError: the variable is set but its value trims to the empty string. */
    | TokenNotFound(tokenEnv: string)

  const QuoteChars: set<char> := {'"'}

  /**
   * The normalisation of a raw token: surrounding whitespace removed, then
   * surrounding double quotes removed. The result is a piece of the raw
   * value that never starts or ends with a double quote.
   */
  function CleanToken(raw: string): (token: string)
    ensures |token| <= |raw|
    ensures token == [] || (token[0] != '"' && token[|token| - 1] != '"')
    ensures token == [] <==> AllIn(Strip(raw, Whitespace), QuoteChars)
  {
    Strip(Strip(raw, Whitespace), QuoteChars)
  }

  /** A value with neither whitespace nor a double quote at its ends is kept unchanged as the token. */
  lemma CleanTokenKeepsBareValue(raw: string)
    requires raw != []
    requires raw[0] !in Whitespace && raw[0] != '"'
    requires raw[|raw| - 1] !in Whitespace && raw[|raw| - 1] != '"'
    ensures CleanToken(raw) == raw
  {
    StripIsUniqueTrim(raw, Whitespace, 0, |raw|);
    StripIsUniqueTrim(raw, QuoteChars, 0, |raw|);
  }

  lemma QuoteIsNotWhitespace()
    ensures '"' !in Whitespace
  {
  }

  /**
   * A value in double quotes, padded with whitespace, is stored without the
   * padding and the quotes, while whitespace inside the quotes is kept:
   * whitespace is stripped before the quotes are.
   */
  lemma CleanTokenUnquotes(pre: string, v: string, post: string)
    requires AllIn(pre, Whitespace) && AllIn(post, Whitespace)
    requires v == [] || (v[0] != '"' && v[|v| - 1] != '"')
    ensures CleanToken(pre + "\"" + v + "\"" + post) == v
  {
    var quoted := "\"" + v + "\"";
    assert pre + "\"" + v + "\"" + post == pre + quoted + post;
    QuoteIsNotWhitespace();
    StripPadded(pre, quoted, post, Whitespace);
    StripInnerOfQuotes(v);
  }

  lemma StripInnerOfQuotes(v: string)
    requires v == [] || (v[0] != '"' && v[|v| - 1] != '"')
    ensures Strip("\"" + v + "\"", QuoteChars) == v
  {
    var quoted := "\"" + v + "\"";
    assert quoted[..1] == "\"" && quoted[|quoted| - 1..] == "\"";
    StripIsUniqueTrim(quoted, QuoteChars, 1, |quoted| - 1);
    assert quoted[1..|quoted| - 1] == v;
  }

  /**
   * The document's cluster list: a list is taken as it is, a dict is replaced
   * by its `clusters` entry (an empty list when absent); anything else, and a
   * dict whose `clusters` entry is not a list, is an invalid format.
   */
  function ClusterList(doc: Value): (r: Result<seq<Value>, LoadError>)
    ensures r.Err? ==> r.error == InvalidFormat
    ensures r.Ok? <==> doc.List? || (doc.Dict? && ("clusters" !in doc.fields || doc.fields["clusters"].List?))
    ensures doc.List? ==> r == Ok(doc.items)
    ensures doc.Dict? && "clusters" !in doc.fields ==> r == Ok([])
    ensures doc.Dict? && "clusters" in doc.fields && doc.fields["clusters"].List? ==> r == Ok(doc.fields["clusters"].items)
  {
    var clusters := if doc.Dict? then (if "clusters" in doc.fields then doc.fields["clusters"] else List([])) else doc;
    if clusters.List? then Ok(clusters.items) else Err(InvalidFormat)
  }

  /**
   * The token of one cluster entry: the entry's `token_env` must be a
   * non-empty variable name, the variable must be set, and its cleaned
   * value must be non-empty. Each failure is the exception Python raises at
   * that point, in this order.
   */
  function TokenFor(cluster: map<string, Value>, env: map<string, string>): (r: Result<string, LoadError>)
    ensures var tokenEnv := Get(cluster, "token_env");
      r.Ok? ==> tokenEnv.Str? && tokenEnv.s in env && r.value == CleanToken(env[tokenEnv.s]) && r.value != []
    ensures var tokenEnv := Get(cluster, "token_env");
      r.Err? && r.error.MissingTokenEnv? <==> !Truthy(tokenEnv)
    ensures r.Err? && r.error.MissingTokenEnv? ==> r.error.name == Get(cluster, "name")
    ensures var tokenEnv := Get(cluster, "token_env");
      r.Err? && r.error.EnvNameNotString? <==> Truthy(tokenEnv) && !tokenEnv.Str?
    ensures var tokenEnv := Get(cluster, "token_env");
      r.Err? && r.error.TokenVariableUnset? <==> tokenEnv.Str? && tokenEnv.s != "" && tokenEnv.s !in env
    ensures var tokenEnv := Get(cluster, "token_env");
      r.Err? && r.error.TokenNotFound? <==>
        tokenEnv.Str? && tokenEnv.s != "" && tokenEnv.s in env && CleanToken(env[tokenEnv.s]) == []
    ensures r.Err? && r.error.EnvNameNotString? ==> r.error.envName == Get(cluster, "token_env")
    ensures r.Err? && (r.error.TokenVariableUnset? || r.error.TokenNotFound?) ==>
      Get(cluster, "token_env") == Str(r.error.tokenEnv)
    ensures r.Err? ==> !r.error.InvalidFormat? && !r.error.EntryWithoutGet?
  {
    var tokenEnv := Get(cluster, "token_env");
    if !Truthy(tokenEnv) then Err(MissingTokenEnv(Get(cluster, "name")))
    else if !tokenEnv.Str? then Err(EnvNameNotString(tokenEnv))
    else if tokenEnv.s !in env then Err(TokenVariableUnset(tokenEnv.s))
    else
      var token := CleanToken(env[tokenEnv.s]);
      if token == [] then Err(TokenNotFound(tokenEnv.s)) else Ok(token)
  }

  /**
   * The `fqdn` of one cluster entry: the value of the variable named by a
   * truthy `fqdn_env`, or `None` when `fqdn_env` is falsy or names an unset
   * variable. A truthy `fqdn_env` that is not a string cannot be looked up.
   */
  function FqdnFor(cluster: map<string, Value>, env: map<string, string>): (r: Result<Value, LoadError>)
    ensures var fqdnEnv := Get(cluster, "fqdn_env");
      r.Err? <==> Truthy(fqdnEnv) && !fqdnEnv.Str?
    ensures r.Err? ==> r.error == EnvNameNotString(Get(cluster, "fqdn_env"))
    ensures r.Ok? ==> r.value == Null || r.value.Str?
    ensures var fqdnEnv := Get(cluster, "fqdn_env");
      (r.Ok? && r.value.Str?) <==> fqdnEnv.Str? && fqdnEnv.s != "" && fqdnEnv.s in env
    ensures r.Ok? && r.value.Str? ==> r.value.s == env[Get(cluster, "fqdn_env").s]
  {
    var fqdnEnv := Get(cluster, "fqdn_env");
    if !Truthy(fqdnEnv) then Ok(Null)
    else if !fqdnEnv.Str? then Err(EnvNameNotString(fqdnEnv))
    else if fqdnEnv.s in env then Ok(Str(env[fqdnEnv.s]))
    else Ok(Null)
  }

  /**
   * What one pass of the loop does to one entry: the entry must be a dict;
   * on success it keeps every field it had, except that `token` and `fqdn`
   * are set, and gains no other field. Token errors are raised before the
   * `fqdn_env` lookup is attempted.
   */
  function ResolveCluster(entry: Value, env: map<string, string>): (r: Result<Value, LoadError>)
    ensures r == Err(EntryWithoutGet) <==> !entry.Dict?
    ensures r.Ok? ==> entry.Dict? && r.value.Dict?
    ensures r.Ok? ==> r.value.fields.Keys == entry.fields.Keys + {"token", "fqdn"}
    ensures r.Ok? ==> forall k :: k in entry.fields && k != "token" && k != "fqdn" ==> r.value.fields[k] == entry.fields[k]
    ensures r.Ok? ==> r.value.fields["token"].Str? && TokenFor(entry.fields, env) == Ok(r.value.fields["token"].s)
    ensures r.Ok? ==> FqdnFor(entry.fields, env) == Ok(r.value.fields["fqdn"])
    ensures entry.Dict? && TokenFor(entry.fields, env).Err? ==> r == Err(TokenFor(entry.fields, env).error)
    ensures entry.Dict? && TokenFor(entry.fields, env).Ok? && FqdnFor(entry.fields, env).Err? ==>
      r == Err(FqdnFor(entry.fields, env).error)
    ensures entry.Dict? ==> (r.Ok? <==> TokenFor(entry.fields, env).Ok? && FqdnFor(entry.fields, env).Ok?)
  {
    if !entry.Dict? then Err(EntryWithoutGet)
    else match TokenFor(entry.fields, env)
      case Err(e) => Err(e)
      case Ok(token) =>
        var withToken := entry.fields["token" := Str(token)];
        assert Get(withToken, "fqdn_env") == Get(entry.fields, "fqdn_env");
        match FqdnFor(withToken, env)
        case Err(e) => Err(e)
        case Ok(fqdn) => Ok(Dict(withToken["fqdn" := fqdn]))
  }

  /**
   * `load_clusters`: a missing file gives no clusters; otherwise the
   * document is reduced to its cluster list and the entries are completed
   * in order, in place, stopping at the first entry that raises. On
   * success the list has the same length and order as the document's list
   * and every entry is that entry resolved; on failure the error is the one
   * raised by the first entry that does not resolve.
   */
  method LoadClusters(file: Option<Value>, env: map<string, string>) returns (r: Result<seq<Value>, LoadError>)
    ensures file.None? ==> r == Ok([])
    ensures file.Some? && ClusterList(file.value).Err? ==> r == Err(InvalidFormat)
    ensures file.Some? && ClusterList(file.value).Ok? ==>
      var entries := ClusterList(file.value).value;
      && (r.Ok? <==> forall i :: 0 <= i < |entries| ==> ResolveCluster(entries[i], env).Ok?)
      && (r.Ok? ==> |r.value| == |entries| &&
                    forall i :: 0 <= i < |entries| ==> ResolveCluster(entries[i], env) == Ok(r.value[i]))
      && (r.Err? ==> exists i :: 0 <= i < |entries| && ResolveCluster(entries[i], env) == Err(r.error) &&
                       forall j :: 0 <= j < i ==> ResolveCluster(entries[j], env).Ok?)
  {
    if file.None? {
      return Ok([]);
    }
    var clusters := file.value;
    if clusters.Dict? {
      clusters := if "clusters" in clusters.fields then clusters.fields["clusters"] else List([]);
    }
    if !clusters.List? {
      return Err(InvalidFormat);
    }
    var list := clusters.items;
    ghost var entries := list;
    var i := 0;
    while i < |list|
      invariant 0 <= i <= |list| == |entries|
      invariant list[i..] == entries[i..]
      invariant forall j :: 0 <= j < i ==> ResolveCluster(entries[j], env) == Ok(list[j])
    {
      assert list[i] == entries[i] by { assert list[i..][0] == entries[i..][0]; }
      var cluster := list[i];
      if !cluster.Dict? {
        return Err(EntryWithoutGet);
      }
      var token;
      match TokenFor(cluster.fields, env) {
        case Err(e) => return Err(e);
        case Ok(t) => token := t;
      }
      cluster := Dict(cluster.fields["token" := Str(token)]);
      list := list[i := cluster];
      var fqdn;
      match FqdnFor(cluster.fields, env) {
        case Err(e) =>
          assert ResolveCluster(entries[i], env) == Err(e);
          return Err(e);
        case Ok(f) => fqdn := f;
      }
      cluster := Dict(cluster.fields["fqdn" := fqdn]);
      list := list[i := cluster];
      i := i + 1;
    }
    return Ok(list);
  }
}
