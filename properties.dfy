/**
 What the urlparse processor promises, stated over the specification functions
 of module UrlParse: the classification of one mapping's outcome, all-or-nothing
 rollback in strict mode, skip-and-continue in best-effort mode, ordering and
 last-writer-wins, and the configuration defaults.
 */
module UrlParseProperties {
  import opened Wrappers
  import opened Events
  import opened UrlParse

  // ---------------------------------------------------------------------------
  // One mapping
  // ---------------------------------------------------------------------------

  /** A missing source is a silent no-op exactly when `ignore_missing` is set; otherwise it fails. */
  lemma MissingSource(env: Env, ignoreMissing: bool, ft: FromTo, f: Fields)
    requires !env.access.readFails(f, ft.from) && ft.from !in f
    ensures ignoreMissing ==> FieldResult(env, ignoreMissing, ft, f) == Success(f)
    ensures !ignoreMissing ==> FieldResult(env, ignoreMissing, ft, f) == Failure(FetchFailed(ft.from, KeyNotFound))
  {
  }

  /** Only a missing key can be ignored: a lookup that fails for another reason always fails the mapping. */
  lemma LookupErrorFails(env: Env, ignoreMissing: bool, ft: FromTo, f: Fields)
    requires env.access.readFails(f, ft.from)
    ensures FieldResult(env, ignoreMissing, ft, f) == Failure(FetchFailed(ft.from, NotMapType))
  {
  }

  /** A source that is present but not a string fails the mapping, and nothing is written. */
  lemma NonStringSourceFails(env: Env, ignoreMissing: bool, ft: FromTo, f: Fields)
    requires !env.access.readFails(f, ft.from) && ft.from in f && !f[ft.from].Str?
    ensures FieldResult(env, ignoreMissing, ft, f) == Failure(InvalidType(f[ft.from]))
  {
  }

  /** A string the URL parser rejects fails the mapping, and nothing is written. */
  lemma UnparsableSourceFails(env: Env, ignoreMissing: bool, ft: FromTo, f: Fields, s: string)
    requires GetValue(env.access, f, ft.from) == Success(Str(s)) && env.urlParse(s).None?
    ensures FieldResult(env, ignoreMissing, ft, f) == Failure(ParseFailed(s))
  {
  }

  /**
   A string that parses is written, as the eight-key component object, at `to`
   (or at `from` when `to` is empty), unless that path cannot be written; no other
   path changes.
   */
  lemma ParsedSourceIsWritten(env: Env, ignoreMissing: bool, ft: FromTo, f: Fields, s: string, c: Components)
    requires GetValue(env.access, f, ft.from) == Success(Str(s)) && env.urlParse(s) == Some(c)
    ensures var t := if ft.to == "" then ft.from else ft.to;
      && (env.access.writeFails(f, t) ==> FieldResult(env, ignoreMissing, ft, f) == Failure(PutFailed(t)))
      && (!env.access.writeFails(f, t) ==> FieldResult(env, ignoreMissing, ft, f) == Success(f[t := Obj(ComponentMap(c))]))
  {
  }

  /** The written object holds exactly the parsed components under their eight keys. */
  lemma ComponentsRoundTrip(c: Components)
    ensures ComponentsOf(ComponentMap(c)) == Some(c)
  {
  }

  /** A failing mapping is the only way to an error; a succeeding one that changes something writes a component object. */
  lemma FieldOutcomeShape(env: Env, ignoreMissing: bool, ft: FromTo, f: Fields)
    ensures FieldResult(env, ignoreMissing, ft, f).Failure? <==>
      || (env.access.readFails(f, ft.from))
      || (ft.from !in f && !ignoreMissing)
      || (ft.from in f && !f[ft.from].Str?)
      || (ft.from in f && f[ft.from].Str? && env.urlParse(f[ft.from].s).None?)
      || (ft.from in f && f[ft.from].Str? && env.urlParse(f[ft.from].s).Some?
          && env.access.writeFails(f, Target(ft)))
  {
  }

  // ---------------------------------------------------------------------------
  // Ordering
  // ---------------------------------------------------------------------------

  /** Running a list of mappings is running its first part, then the rest on the result. */
  lemma {:induction false} AppliedConcat(env: Env, ignoreMissing: bool, pre: seq<FromTo>, post: seq<FromTo>, f: Fields)
    ensures Applied(env, ignoreMissing, pre + post, f) == Applied(env, ignoreMissing, post, Applied(env, ignoreMissing, pre, f))
    decreases |post|
  {
    if |post| == 0 {
      assert pre + post == pre;
    } else {
      var n := |post| - 1;
      AppliedConcat(env, ignoreMissing, pre, post[..n], f);
      assert (pre + post)[..|pre + post| - 1] == pre + post[..n];
      assert (pre + post)[|pre + post| - 1] == post[n];
    }
  }

  /**
   Last writer wins: when mapping `k` writes components `c` and no later mapping
   has the same target, the run ends with `c` at that target.
   */
  lemma LastWriterWins(env: Env, ignoreMissing: bool, fts: seq<FromTo>, k: nat, f: Fields, s: string, c: Components)
    requires k < |fts|
    requires forall j :: k < j < |fts| ==> Target(fts[j]) != Target(fts[k])
    requires GetValue(env.access, Applied(env, ignoreMissing, fts[..k], f), fts[k].from) == Success(Str(s))
    requires env.urlParse(s) == Some(c)
    requires !env.access.writeFails(Applied(env, ignoreMissing, fts[..k], f), Target(fts[k]))
    ensures Target(fts[k]) in Applied(env, ignoreMissing, fts, f)
    ensures Applied(env, ignoreMissing, fts, f)[Target(fts[k])] == Obj(ComponentMap(c))
  {
    var t := Target(fts[k]);
    var post := fts[k + 1..];
    AppliedStep(env, ignoreMissing, fts, k, f);
    var g := Applied(env, ignoreMissing, fts[..k + 1], f);
    assert t in g && g[t] == Obj(ComponentMap(c));
    assert fts == fts[..k + 1] + post;
    AppliedConcat(env, ignoreMissing, fts[..k + 1], post, f);
    forall j | 0 <= j < |post| ensures Target(post[j]) != t {
      assert post[j] == fts[k + 1 + j];
    }
    assert Agree(g, Applied(env, ignoreMissing, post, g), t);
  }

  // ---------------------------------------------------------------------------
  // A whole run, strict mode
  // ---------------------------------------------------------------------------

  /**
   All or nothing: in strict mode a run errs exactly when some mapping fails; the
   error is the first failing mapping's, and the fields returned are the entry
   fields plus `error.message` (plus nothing, when that path cannot be written),
   however many mappings had already written.
   */
  lemma StrictRollsBack(env: Env, cfg: Config, f: Fields)
    requires cfg.failOnError
    ensures var r := RunResult(env, cfg, f);
      && (r.err.Some? <==> exists j :: 0 <= j < |cfg.fields| && !Succeeds(env, cfg.ignoreMissing, cfg.fields, f, j))
      && (r.err.Some? ==> exists k :: FailsFirst(env, cfg.ignoreMissing, cfg.fields, f, Failing(k, r.err.value)))
      && (r.err.Some? ==> SameExcept(f, r.fields, {ErrorMessageKey}))
      && (r.err.Some? && !env.access.writeFails(f, ErrorMessageKey) ==>
            r.fields == f[ErrorMessageKey := Str(env.format(r.err.value))])
      && (r.err.Some? && env.access.writeFails(f, ErrorMessageKey) ==> r.fields == f)
  {
    var ff := FirstFailure(env, cfg.ignoreMissing, cfg.fields, f);
    if ff.Some? {
      assert FailsFirst(env, cfg.ignoreMissing, cfg.fields, f, Failing(ff.value.index, ff.value.error));
      assert !Succeeds(env, cfg.ignoreMissing, cfg.fields, f, ff.value.index);
    }
  }

  /** In strict mode a run without error has applied every mapping successfully, in order. */
  lemma StrictSuccessAppliesAll(env: Env, cfg: Config, f: Fields)
    requires cfg.failOnError
    ensures var r := RunResult(env, cfg, f);
      r.err.None? ==>
        && (forall j :: 0 <= j < |cfg.fields| ==> Succeeds(env, cfg.ignoreMissing, cfg.fields, f, j))
        && r.fields == Applied(env, cfg.ignoreMissing, cfg.fields, f)
        && SameExcept(f, r.fields, Targets(cfg.fields))
  {
  }

  /**
   In strict mode nothing after the first failing mapping matters: appending
   mappings after it changes neither the fields nor the error returned.
   */
  lemma StrictStopsAtFirstFailure(env: Env, cfg: Config, rest: seq<FromTo>, f: Fields)
    requires cfg.failOnError && FirstFailure(env, cfg.ignoreMissing, cfg.fields, f).Some?
    ensures RunResult(env, cfg.(fields := cfg.fields + rest), f) == RunResult(env, cfg, f)
  {
    var fts := cfg.fields + rest;
    var ff := FirstFailure(env, cfg.ignoreMissing, cfg.fields, f).value;
    assert fts[..|cfg.fields|] == cfg.fields;
    FailsFirstPrefix(env, cfg.ignoreMissing, fts, |cfg.fields|, f, ff);
    FirstFailureUnique(env, cfg.ignoreMissing, fts, f, ff);
  }

  /** `ignore_missing` never lets a missing source trigger a rollback, even in strict mode. */
  lemma IgnoredMissingNeverRollsBack(env: Env, cfg: Config, f: Fields, j: nat)
    requires cfg.ignoreMissing && j < |cfg.fields|
    requires var g := Applied(env, cfg.ignoreMissing, cfg.fields[..j], f);
      !env.access.readFails(g, cfg.fields[j].from) && cfg.fields[j].from !in g
    ensures Succeeds(env, cfg.ignoreMissing, cfg.fields, f, j)
    ensures forall ff :: FailsFirst(env, cfg.ignoreMissing, cfg.fields, f, ff) ==> ff.index != j
  {
    MissingSource(env, cfg.ignoreMissing, cfg.fields[j], Applied(env, cfg.ignoreMissing, cfg.fields[..j], f));
  }

  // ---------------------------------------------------------------------------
  // A whole run, best-effort mode
  // ---------------------------------------------------------------------------

  /**
   Best effort: a run never errs, failed mappings are skipped, and only the
   configured targets can change, so `error.message` is never added unless it is
   itself a target.
   */
  lemma BestEffortNeverErrs(env: Env, cfg: Config, f: Fields)
    requires !cfg.failOnError
    ensures var r := RunResult(env, cfg, f);
      && r.err.None?
      && r.fields == Applied(env, cfg.ignoreMissing, cfg.fields, f)
      && SameExcept(f, r.fields, Targets(cfg.fields))
      && (ErrorMessageKey !in Targets(cfg.fields) ==> Agree(f, r.fields, ErrorMessageKey))
  {
  }

  /** In best-effort mode a failing mapping changes nothing: the run is the run without it. */
  lemma BestEffortSkipsFailure(env: Env, cfg: Config, pre: seq<FromTo>, ft: FromTo, post: seq<FromTo>, f: Fields)
    requires !cfg.failOnError && cfg.fields == pre + [ft] + post
    requires FieldResult(env, cfg.ignoreMissing, ft, Applied(env, cfg.ignoreMissing, pre, f)).Failure?
    ensures RunResult(env, cfg, f) == RunResult(env, cfg.(fields := pre + post), f)
  {
    AppliedConcat(env, cfg.ignoreMissing, pre + [ft], post, f);
    AppliedConcat(env, cfg.ignoreMissing, pre, post, f);
    AppliedStep(env, cfg.ignoreMissing, pre + [ft], |pre|, f);
    assert (pre + [ft])[..|pre| + 1] == pre + [ft];
    assert (pre + [ft])[..|pre|] == pre;
  }

  // ---------------------------------------------------------------------------
  // Configuration
  // ---------------------------------------------------------------------------

  /** With neither flag given, `ignore_missing` is false and `fail_on_error` is true. */
  lemma ConfigureDefaults(fts: seq<FromTo>)
    requires |fts| > 0 && forall i :: 0 <= i < |fts| ==> fts[i].from != ""
    ensures Configure(Options(fts, None, None)) == Success(Config(fts, false, true))
  {
  }

  /** Configuration fails without mappings, or with a mapping that lacks `from`. */
  lemma ConfigureRejects(opts: Options)
    ensures |opts.fields| == 0 ==> Configure(opts) == Failure(FieldsRequired)
    ensures |opts.fields| > 0 && (exists i :: 0 <= i < |opts.fields| && opts.fields[i].from == "") ==>
      Configure(opts) == Failure(FromRequired)
  {
  }

  // ---------------------------------------------------------------------------
  // Determinism, and three concrete runs
  // ---------------------------------------------------------------------------

  /** Running the same processor on two events with the same fields gives the same fields and the same error. */
  method RunTwice(env: Env, p: UrlParse, f: Fields) returns (first: Fields, second: Fields, err1: Option<FieldError>, err2: Option<FieldError>)
    ensures first == second && err1 == err2
    ensures first == RunResult(env, p.config, f).fields
  {
    var a := new Event(f);
    var outA, errA, nA := p.Run(env, a);
    var b := new Event(f);
    var outB, errB, nB := p.Run(env, b);
    return a.fields, b.fields, errA, errB;
  }

  const Request: string := "request"
  const SampleUrl: string := "https://example.com:8443/a/b?x=1#frag"
  const SampleComponents: Components :=
    Components("https", "", "example.com", "8443", "/a/b", "", "x=1", "frag")

  /** A URL field rewritten in place into its components. */
  lemma SampleRewrite(env: Env)
    requires env.urlParse(SampleUrl) == Some(SampleComponents)
    requires !env.access.readFails(map[Request := Str(SampleUrl)], Request)
    requires !env.access.writeFails(map[Request := Str(SampleUrl)], Request)
    ensures RunResult(env, Config([FromTo(Request, Request)], false, true), map[Request := Str(SampleUrl)]) ==
      RunOutcome(map[Request := Obj(map[
        "scheme" := Str("https"), "opaque" := Str(""), "hostname" := Str("example.com"),
        "port" := Str("8443"), "path" := Str("/a/b"), "raw_path" := Str(""),
        "raw_query" := Str("x=1"), "fragment" := Str("frag")])], None)
  {
    var cfg := Config([FromTo(Request, Request)], false, true);
    var f := map[Request := Str(SampleUrl)];
    assert cfg.fields[..0] == [];
    assert FieldResult(env, cfg.ignoreMissing, cfg.fields[0], f) == Success(f[Request := Obj(ComponentMap(SampleComponents))]);
  }

  /**
   An absent field in strict mode: the empty event comes back annotated, with a
   key-not-found error; when `error.message` can be written, it is the only field.
   */
  lemma SampleMissingStrict(env: Env)
    requires !env.access.readFails(map[], Request)
    ensures var e := FetchFailed(Request, KeyNotFound);
      RunResult(env, Config([FromTo(Request, Request)], false, true), map[]) ==
      RunOutcome(Annotated(env, map[], e), Some(e))
    ensures var e := FetchFailed(Request, KeyNotFound);
      !env.access.writeFails(map[], ErrorMessageKey) ==>
        RunResult(env, Config([FromTo(Request, Request)], false, true), map[]) ==
        RunOutcome(map[ErrorMessageKey := Str(env.format(e))], Some(e))
  {
    var cfg := Config([FromTo(Request, Request)], false, true);
    assert cfg.fields[..0] == [];
  }

  /** A number where a URL was expected, in best-effort mode: the event comes back unchanged, without error. */
  lemma SampleWrongTypeBestEffort(env: Env)
    requires !env.access.readFails(map[Request := Int(42)], Request)
    ensures RunResult(env, Config([FromTo(Request, Request)], false, false), map[Request := Int(42)]) ==
      RunOutcome(map[Request := Int(42)], None)
  {
    var cfg := Config([FromTo(Request, Request)], false, false);
    var f := map[Request := Int(42)];
    assert cfg.fields[..0] == [];
    assert FieldResult(env, false, cfg.fields[0], f) == Failure(InvalidType(Int(42)));
    assert Applied(env, false, cfg.fields, f) == f;
  }
}
