/**
 The urlparse processor: for each configured mapping it reads a string field,
 decomposes it as a URL and writes the eight components as an object at the
 target path. In strict mode (fail_on_error) the first failing mapping rolls the
 event back to its fields on entry and annotates it with `error.message`; in
 best-effort mode failing mappings are skipped.

 The specification functions `FieldResult`, `Applied`, `FirstFailure` and
 `RunResult` say what one mapping and one whole run compute; the methods
 `UrlParse.ParseField` and `UrlParse.Run` do it in place on an `Event` and are
 proved against them.
 */
module UrlParse {
  import opened Wrappers
  import opened Events

  // ---------------------------------------------------------------------------
  // Configuration
  // ---------------------------------------------------------------------------

  /** One mapping: the source path, and the target path ("" means: the source). */
  datatype FromTo = FromTo(from: string, to: string)

  /** The execution plan: the mappings in order and the two policy flags. */
  datatype Config = Config(fields: seq<FromTo>, ignoreMissing: bool, failOnError: bool)

  /** The options as the configuration decoder hands them over; an absent flag is `None`. */
  datatype Options = Options(fields: seq<FromTo>, ignoreMissing: Option<bool>, failOnError: Option<bool>)

  /** A required setting is absent or empty: the mapping list, or some mapping's `from`. */
  datatype ConfigError = FieldsRequired | FromRequired

  /**
   The processor's configuration: `ignore_missing` defaults to false and
   `fail_on_error` to true; `fields` and every `from` are required.
   */
  function Configure(opts: Options): (r: Result<Config, ConfigError>)
    ensures r.Success? <==>
      |opts.fields| > 0 && forall i :: 0 <= i < |opts.fields| ==> opts.fields[i].from != ""
    ensures r.Success? ==> r.value.fields == opts.fields
    ensures r.Success? ==> (r.value.ignoreMissing <==> opts.ignoreMissing == Some(true))
    ensures r.Success? ==> (r.value.failOnError <==> opts.failOnError != Some(false))
    ensures r.Success? ==> forall i :: 0 <= i < |r.value.fields| ==> Target(r.value.fields[i]) != ""
  {
    if |opts.fields| == 0 then Failure(FieldsRequired)
    else if exists i :: 0 <= i < |opts.fields| && opts.fields[i].from == "" then Failure(FromRequired)
    else
      var ignoreMissing := if opts.ignoreMissing.Some? then opts.ignoreMissing.value else false;
      var failOnError := if opts.failOnError.Some? then opts.failOnError.value else true;
      Success(Config(opts.fields, ignoreMissing, failOnError))
  }

  /** The path a mapping writes to: `to`, or `from` when `to` is empty. */
  function Target(ft: FromTo): (t: string)
    ensures t == ft.to || (ft.to == "" && t == ft.from)
    ensures t == "" ==> ft.from == "" && ft.to == ""
  {
    if ft.to == "" then ft.from else ft.to
  }

  /** The set of paths the mappings may write. */
  function Targets(fts: seq<FromTo>): (ts: set<string>)
  {
    set j | 0 <= j < |fts| :: Target(fts[j])
  }

  // ---------------------------------------------------------------------------
  // URL components
  // ---------------------------------------------------------------------------

  /** What a URL parse yields, with the host already split into hostname and port. */
  datatype Components = Components(
    scheme: string, opaquePart: string, hostname: string, port: string,
    path: string, rawPath: string, rawQuery: string, fragment: string)

  const ComponentKeys: set<string> :=
    {"scheme", "opaque", "hostname", "port", "path", "raw_path", "raw_query", "fragment"}

  /** The object written to the target: exactly the eight component keys, each a string. */
  function ComponentMap(c: Components): (m: map<string, Value>)
    ensures m.Keys == ComponentKeys
    ensures forall k :: k in m ==> m[k].Str?
  {
    map[
      "scheme" := Str(c.scheme), "opaque" := Str(c.opaquePart),
      "hostname" := Str(c.hostname), "port" := Str(c.port),
      "path" := Str(c.path), "raw_path" := Str(c.rawPath),
      "raw_query" := Str(c.rawQuery), "fragment" := Str(c.fragment)]
  }

  /** Reads the components back out of a written object. */
  function ComponentsOf(m: map<string, Value>): (r: Option<Components>)
  {
    if ComponentKeys <= m.Keys && forall k :: k in ComponentKeys ==> m[k].Str? then
      Some(Components(
        m["scheme"].s, m["opaque"].s, m["hostname"].s, m["port"].s,
        m["path"].s, m["raw_path"].s, m["raw_query"].s, m["fragment"].s))
    else None
  }

  /** A value shaped like the processor's output object. */
  ghost predicate IsComponentObject(v: Value)
  {
    v.Obj? && v.fields.Keys == ComponentKeys && forall k :: k in v.fields ==> v.fields[k].Str?
  }

  // ---------------------------------------------------------------------------
  // Errors and the foreign code the processor calls
  // ---------------------------------------------------------------------------

  /** Why one mapping failed. */
  datatype FieldError =
    | FetchFailed(from: string, cause: GetError)   // the source could not be looked up
    | InvalidType(found: Value)                   // the source is not a string
    | ParseFailed(url: string)                    // the URL parser rejected the string
    | PutFailed(target: string)                   // the components could not be written

  /**
   The code the processor calls but this model does not: the URL parser together
   with its hostname/port split, the dotted-path traversal of the event, and the
   formatting of an error into the `error.message` text.
   */
  datatype Env = Env(access: Access, urlParse: string -> Option<Components>, format: FieldError -> string)

  const ErrorMessageKey: string := "error.message"

  // ---------------------------------------------------------------------------
  // One mapping
  // ---------------------------------------------------------------------------

  /**
   What one mapping does to the fields: either new fields (possibly the same,
   when a missing source is ignored) or the reason it failed.
   */
  function FieldResult(env: Env, ignoreMissing: bool, ft: FromTo, f: Fields): (r: Result<Fields, FieldError>)
    ensures r.Success? ==> SameExcept(f, r.value, {Target(ft)})
    ensures r.Success? && r.value != f ==>
      Target(ft) in r.value && IsComponentObject(r.value[Target(ft)])
  {
    match GetValue(env.access, f, ft.from)
    case Failure(cause) =>
      if ignoreMissing && cause == KeyNotFound then Success(f)
      else Failure(FetchFailed(ft.from, cause))
    case Success(v) =>
      if !v.Str? then Failure(InvalidType(v))
      else match env.urlParse(v.s)
        case None => Failure(ParseFailed(v.s))
        case Some(c) =>
          match Put(env.access, f, Target(ft), Obj(ComponentMap(c)))
          case None => Failure(PutFailed(Target(ft)))
          case Some(g) => Success(g)
  }

  // ---------------------------------------------------------------------------
  // A whole run
  // ---------------------------------------------------------------------------

  lemma TargetsPrefix(fts: seq<FromTo>, n: nat)
    requires n < |fts|
    ensures Targets(fts[..n]) + {Target(fts[n])} <= Targets(fts)
  {
    forall t | t in Targets(fts[..n]) ensures t in Targets(fts) {
      var j :| 0 <= j < n && Target(fts[..n][j]) == t;
      assert fts[..n][j] == fts[j];
    }
  }

  /**
   The fields after applying the mappings in order, each one to the fields the
   ones before it left, a failing mapping leaving them as they were.
   */
  function Applied(env: Env, ignoreMissing: bool, fts: seq<FromTo>, f: Fields): (r: Fields)
    decreases |fts|
    ensures SameExcept(f, r, Targets(fts))
  {
    if |fts| == 0 then f
    else
      var n := |fts| - 1;
      var g := Applied(env, ignoreMissing, fts[..n], f);
      TargetsPrefix(fts, n);
      match FieldResult(env, ignoreMissing, fts[n], g)
      case Success(h) =>
        SameExceptTrans(f, g, h, Targets(fts[..n]), {Target(fts[n])}, Targets(fts));
        h
      case Failure(_) =>
        SameExceptTrans(f, g, g, Targets(fts[..n]), {}, Targets(fts));
        g
  }

  /** Mapping `j` succeeds on the fields the mappings before it left. */
  ghost predicate Succeeds(env: Env, ignoreMissing: bool, fts: seq<FromTo>, f: Fields, j: nat)
    requires j < |fts|
  {
    FieldResult(env, ignoreMissing, fts[j], Applied(env, ignoreMissing, fts[..j], f)).Success?
  }

  /** Which mapping failed first, and how. */
  datatype Failing = Failing(index: nat, error: FieldError)

  /** `ff` names a failing mapping all of whose predecessors succeeded. */
  ghost predicate FailsFirst(env: Env, ignoreMissing: bool, fts: seq<FromTo>, f: Fields, ff: Failing)
  {
    && ff.index < |fts|
    && FieldResult(env, ignoreMissing, fts[ff.index], Applied(env, ignoreMissing, fts[..ff.index], f)) == Failure(ff.error)
    && forall j :: 0 <= j < ff.index ==> Succeeds(env, ignoreMissing, fts, f, j)
  }

  lemma SucceedsPrefix(env: Env, ignoreMissing: bool, fts: seq<FromTo>, n: nat, f: Fields)
    requires n <= |fts|
    ensures forall j :: 0 <= j < n ==> (Succeeds(env, ignoreMissing, fts[..n], f, j) <==> Succeeds(env, ignoreMissing, fts, f, j))
  {
    forall j | 0 <= j < n
      ensures Succeeds(env, ignoreMissing, fts[..n], f, j) <==> Succeeds(env, ignoreMissing, fts, f, j)
    {
      assert fts[..n][..j] == fts[..j];
      assert fts[..n][j] == fts[j];
    }
  }

  lemma FailsFirstPrefix(env: Env, ignoreMissing: bool, fts: seq<FromTo>, n: nat, f: Fields, ff: Failing)
    requires n <= |fts| && FailsFirst(env, ignoreMissing, fts[..n], f, ff)
    ensures FailsFirst(env, ignoreMissing, fts, f, ff)
  {
    SucceedsPrefix(env, ignoreMissing, fts, n, f);
    assert fts[..n][..ff.index] == fts[..ff.index];
    assert fts[..n][ff.index] == fts[ff.index];
  }

  /** The first mapping that fails on the fields its predecessors left, if any. */
  function FirstFailure(env: Env, ignoreMissing: bool, fts: seq<FromTo>, f: Fields): (r: Option<Failing>)
    decreases |fts|
    ensures r.None? ==> forall j :: 0 <= j < |fts| ==> Succeeds(env, ignoreMissing, fts, f, j)
    ensures r.Some? ==> FailsFirst(env, ignoreMissing, fts, f, r.value)
  {
    if |fts| == 0 then None
    else
      var n := |fts| - 1;
      match FirstFailure(env, ignoreMissing, fts[..n], f)
      case Some(ff) =>
        FailsFirstPrefix(env, ignoreMissing, fts, n, f, ff);
        Some(ff)
      case None =>
        var g := Applied(env, ignoreMissing, fts[..n], f);
        match FieldResult(env, ignoreMissing, fts[n], g)
        case Failure(e) =>
          LastFailsFirst(env, ignoreMissing, fts, n, f, e);
          Some(Failing(n, e))
        case Success(_) =>
          LastSucceeds(env, ignoreMissing, fts, n, f);
          None
  }

  lemma LastFailsFirst(env: Env, ignoreMissing: bool, fts: seq<FromTo>, n: nat, f: Fields, e: FieldError)
    requires n + 1 == |fts|
    requires forall j :: 0 <= j < n ==> Succeeds(env, ignoreMissing, fts[..n], f, j)
    requires FieldResult(env, ignoreMissing, fts[n], Applied(env, ignoreMissing, fts[..n], f)) == Failure(e)
    ensures FailsFirst(env, ignoreMissing, fts, f, Failing(n, e))
  {
    SucceedsPrefix(env, ignoreMissing, fts, n, f);
  }

  lemma LastSucceeds(env: Env, ignoreMissing: bool, fts: seq<FromTo>, n: nat, f: Fields)
    requires n + 1 == |fts|
    requires forall j :: 0 <= j < n ==> Succeeds(env, ignoreMissing, fts[..n], f, j)
    requires FieldResult(env, ignoreMissing, fts[n], Applied(env, ignoreMissing, fts[..n], f)).Success?
    ensures forall j :: 0 <= j < |fts| ==> Succeeds(env, ignoreMissing, fts, f, j)
  {
    SucceedsPrefix(env, ignoreMissing, fts, n, f);
  }

  /** Applying one more mapping: it works on what the earlier ones left. */
  lemma AppliedStep(env: Env, ignoreMissing: bool, fts: seq<FromTo>, i: nat, f: Fields)
    requires i < |fts|
    ensures Applied(env, ignoreMissing, fts[..i + 1], f) ==
      match FieldResult(env, ignoreMissing, fts[i], Applied(env, ignoreMissing, fts[..i], f))
      case Success(h) => h
      case Failure(_) => Applied(env, ignoreMissing, fts[..i], f)
  {
    assert fts[..i + 1][..i] == fts[..i];
  }

  /** While nothing has failed, one more mapping fails first exactly when it fails. */
  lemma FirstFailureStep(env: Env, ignoreMissing: bool, fts: seq<FromTo>, i: nat, f: Fields)
    requires i < |fts| && FirstFailure(env, ignoreMissing, fts[..i], f).None?
    ensures FirstFailure(env, ignoreMissing, fts[..i + 1], f) ==
      match FieldResult(env, ignoreMissing, fts[i], Applied(env, ignoreMissing, fts[..i], f))
      case Success(_) => None
      case Failure(e) => Some(Failing(i, e))
  {
    assert fts[..i + 1][..i] == fts[..i];
  }

  /** The backed-up fields with the error message put at `error.message`, if that path can be written. */
  function Annotated(env: Env, f: Fields, e: FieldError): (r: Fields)
    ensures SameExcept(f, r, {ErrorMessageKey})
    ensures !env.access.writeFails(f, ErrorMessageKey) ==>
      ErrorMessageKey in r && r[ErrorMessageKey] == Str(env.format(e))
    ensures env.access.writeFails(f, ErrorMessageKey) ==> r == f
  {
    match Put(env.access, f, ErrorMessageKey, Str(env.format(e)))
    case Some(g) => g
    case None => f
  }

  /** What a run returns: the event's fields and the error, if any. */
  datatype RunOutcome = RunOutcome(fields: Fields, err: Option<FieldError>)

  /** The result of one run of the processor on fields `f`. */
  function RunResult(env: Env, cfg: Config, f: Fields): (r: RunOutcome)
    ensures r.err.Some? ==> cfg.failOnError && SameExcept(f, r.fields, {ErrorMessageKey})
    ensures r.err.None? ==> SameExcept(f, r.fields, Targets(cfg.fields))
  {
    var ff := FirstFailure(env, cfg.ignoreMissing, cfg.fields, f);
    if cfg.failOnError && ff.Some? then RunOutcome(Annotated(env, f, ff.value.error), Some(ff.value.error))
    else RunOutcome(Applied(env, cfg.ignoreMissing, cfg.fields, f), None)
  }

  // ---------------------------------------------------------------------------
  // The processor, updating an event in place
  // ---------------------------------------------------------------------------

  class UrlParse {
    const config: Config

    constructor (config: Config)
      ensures this.config == config
    {
      this.config := config;
    }

    /** Applies one mapping to the event; on failure the event is left as it was. */
    method ParseField(env: Env, from: string, to: string, event: Event) returns (err: Option<FieldError>)
      modifies event
      ensures var r := FieldResult(env, config.ignoreMissing, FromTo(from, to), old(event.fields));
        && (r.Success? ==> err == None && event.fields == r.value)
        && (r.Failure? ==> err == Some(r.error) && event.fields == old(event.fields))
    {
      var value := GetValue(env.access, event.fields, from);
      if value.Failure? {
        if config.ignoreMissing && value.error == KeyNotFound {
          return None;
        }
        return Some(FetchFailed(from, value.error));
      }
      if !value.value.Str? {
        return Some(InvalidType(value.value));
      }
      var parsed := env.urlParse(value.value.s);
      if parsed.None? {
        return Some(ParseFailed(value.value.s));
      }
      var target := to;
      if to == "" {
        target := from;
      }
      var ok := event.PutValue(env.access, target, Obj(ComponentMap(parsed.value)));
      if !ok {
        return Some(PutFailed(target));
      }
      return None;
    }

    /**
     Runs every mapping in order. `evaluated` counts the mappings looked at: in
     strict mode a run stops right after the first failing one.
     */
    method Run(env: Env, event: Event) returns (out: Event, err: Option<FieldError>, ghost evaluated: nat)
      modifies event
      ensures out == event
      ensures event.fields == RunResult(env, config, old(event.fields)).fields
      ensures err == RunResult(env, config, old(event.fields)).err
      ensures var ff := FirstFailure(env, config.ignoreMissing, config.fields, old(event.fields));
        evaluated == if config.failOnError && ff.Some? then ff.value.index + 1 else |config.fields|
    {
      var backup: Fields := map[];
      if config.failOnError {
        backup := event.fields;
      }
      ghost var start := event.fields;
      var fields := config.fields;
      var i := 0;
      while i < |fields|
        invariant i <= |fields|
        invariant event.fields == Applied(env, config.ignoreMissing, fields[..i], start)
        invariant config.failOnError ==> backup == start && FirstFailure(env, config.ignoreMissing, fields[..i], start).None?
      {
        var field := fields[i];
        AppliedStep(env, config.ignoreMissing, fields, i, start);
        if config.failOnError {
          FirstFailureStep(env, config.ignoreMissing, fields, i, start);
        }
        var e := ParseField(env, field.from, field.to, event);
        if e.Some? && config.failOnError {
          event.fields := backup;
          var written := event.PutValue(env.access, ErrorMessageKey, Str(env.format(e.value)));
          FailsFirstPrefix(env, config.ignoreMissing, fields, i + 1, start, Failing(i, e.value));
          FirstFailureUnique(env, config.ignoreMissing, fields, start, Failing(i, e.value));
          assert RunResult(env, config, start) == RunOutcome(Annotated(env, start, e.value), e);
          return event, e, i + 1;
        }
        i := i + 1;
      }
      assert fields[..i] == fields;
      assert RunResult(env, config, start) == RunOutcome(Applied(env, config.ignoreMissing, fields, start), None);
      return event, None, i;
    }
  }

  /** The first failure is unique: a failing mapping whose predecessors all succeeded is the one `FirstFailure` finds. */
  lemma FirstFailureUnique(env: Env, ignoreMissing: bool, fts: seq<FromTo>, f: Fields, ff: Failing)
    requires FailsFirst(env, ignoreMissing, fts, f, ff)
    ensures FirstFailure(env, ignoreMissing, fts, f) == Some(ff)
  {
    var r := FirstFailure(env, ignoreMissing, fts, f);
    assert !Succeeds(env, ignoreMissing, fts, f, ff.index);
    if r.Some? {
      assert !Succeeds(env, ignoreMissing, fts, f, r.value.index);
    }
  }

  /** Builds the processor from decoded options. */
  method New(opts: Options) returns (r: Result<UrlParse, ConfigError>)
    ensures r.Success? <==> Configure(opts).Success?
    ensures r.Success? ==> fresh(r.value) && r.value.config == Configure(opts).value
    ensures r.Failure? ==> r.error == Configure(opts).error
  {
    var cfg := Configure(opts);
    if cfg.Failure? {
      return Failure(cfg.error);
    }
    var p := new UrlParse(cfg.value);
    return Success(p);
  }
}
