/** Rewriting the logging flags of a container's argument list
    (LoggingCommonCfg in api/v1alpha1/keda_types.go, the argument updaters in pkg/reconciler/fsm.go). */
module Logging {
  import opened KedaTypes

  /** One configured flag: which arguments it owns and the text it renders to. */
  datatype MatchStringer = MatchStringer(prefix: string, value: string) {
    predicate Match(arg: string) { prefix <= arg }
    function String(): string { prefix + "=" + value }
  }

  // ---- specification ------------------------------------------------------

  function UpdatedArg(props: seq<MatchStringer>, arg: string): string {
    if props == [] then arg
    else UpdatedArg(props[1..], if props[0].Match(arg) then props[0].String() else arg)
  }

  predicate Mentioned(p: MatchStringer, args: seq<string>) {
    exists i :: 0 <= i < |args| && p.Match(args[i])
  }

  function MissingArgs(props: seq<MatchStringer>, args: seq<string>): (r: seq<string>)
    ensures |r| <= |props|
  {
    if props == [] then []
    else (if Mentioned(props[0], args) then [] else [props[0].String()]) + MissingArgs(props[1..], args)
  }

  function UpdatedArgs(props: seq<MatchStringer>, args: seq<string>): seq<string> {
    seq(|args|, i requires 0 <= i < |args| => UpdatedArg(props, args[i]))
  }

  function RewrittenArgs(props: seq<MatchStringer>, args: seq<string>): seq<string> {
    UpdatedArgs(props, args) + MissingArgs(props, UpdatedArgs(props, args))
  }

  /** The first argument that p owns is overwritten; without one, p is appended. */
  function WithFirst(p: MatchStringer, args: seq<string>): seq<string> {
    if args == [] then [p.String()]
    else if p.Match(args[0]) then [p.String()] + args[1..]
    else [args[0]] + WithFirst(p, args[1..])
  }

  // ---- the loops of the source --------------------------------------------

  method UpdateArg(props: seq<MatchStringer>, arg: string) returns (r: string)
    ensures r == UpdatedArg(props, arg)
  {
    r := arg;
    for i := 0 to |props|
      invariant UpdatedArg(props, arg) == UpdatedArg(props[i..], r)
    {
      assert props[i..][1..] == props[i+1..];
      if props[i].Match(r) {
        r := props[i].String();
      }
    }
  }

  /** Whether some argument belongs to the flag. */
  method IsMentioned(p: MatchStringer, args: seq<string>) returns (found: bool)
    ensures found == Mentioned(p, args)
  {
    for j := 0 to |args|
      invariant forall k :: 0 <= k < j ==> !p.Match(args[k])
    {
      if p.Match(args[j]) {
        return true;
      }
    }
    found := false;
  }

  method AppendMissingArgs(props: seq<MatchStringer>, args: seq<string>) returns (missing: seq<string>)
    ensures missing == MissingArgs(props, args)
  {
    hide Mentioned;
    missing := [];
    for i := 0 to |props|
      invariant MissingArgs(props, args) == missing + MissingArgs(props[i..], args)
    {
      assert props[i..][1..] == props[i+1..];
      var found := IsMentioned(props[i], args);
      if !found {
        missing := missing + [props[i].String()];
      }
    }
  }

  method UpdateContainerArgs(props: seq<MatchStringer>, args: seq<string>) returns (r: seq<string>)
    ensures r == RewrittenArgs(props, args)
  {
    r := args;
    for i := 0 to |args|
      invariant |r| == |args|
      invariant forall k :: 0 <= k < i ==> r[k] == UpdatedArg(props, args[k])
      invariant forall k :: i <= k < |args| ==> r[k] == args[k]
    {
      var arg := UpdateArg(props, r[i]);
      r := r[i := arg];
    }
    assert r == UpdatedArgs(props, args);
    var missing := AppendMissingArgs(props, r);
    r := r + missing;
  }

  method UpdateFirst(p: MatchStringer, args: seq<string>) returns (r: seq<string>)
    ensures r == WithFirst(p, args)
  {
    var i := 0;
    while i < |args|
      invariant 0 <= i <= |args|
      invariant WithFirst(p, args) == args[..i] + WithFirst(p, args[i..])
    {
      assert args[i..][1..] == args[i+1..];
      if p.Match(args[i]) {
        assert args[..i] + ([p.String()] + args[i..][1..]) == args[i := p.String()];
        return args[i := p.String()];
      }
      assert args[..i] + [args[i]] == args[..i+1];
      i := i + 1;
    }
    r := args + [p.String()];
  }

  // ---- what the rewriting promises ----------------------------------------

  predicate Unrelated(p: string, q: string) { !(p <= q) && !(q <= p) }

  /** No argument can belong to two of the flags. */
  ghost predicate Disjoint(props: seq<MatchStringer>) {
    forall i, j :: 0 <= i < j < |props| ==> Unrelated(props[i].prefix, props[j].prefix)
  }

  lemma OneOwner(p: MatchStringer, q: MatchStringer, arg: string)
    requires Unrelated(p.prefix, q.prefix) && p.Match(arg)
    ensures !q.Match(arg)
  {
  }

  lemma StringMatches(p: MatchStringer)
    ensures p.Match(p.String())
  {
    assert p.String()[..|p.prefix|] == p.prefix;
  }

  /** The flag that owns the argument is rendered; an argument nobody owns is kept. */
  lemma {:induction false} UpdatedArgMeaning(props: seq<MatchStringer>, arg: string)
    requires Disjoint(props)
    ensures forall p :: p in props && p.Match(arg) ==> UpdatedArg(props, arg) == p.String()
    ensures (forall p :: p in props ==> !p.Match(arg)) ==> UpdatedArg(props, arg) == arg
  {
    if props != [] {
      var first, rest := props[0], props[1..];
      assert forall p :: p in rest ==> Unrelated(first.prefix, p.prefix);
      if first.Match(arg) {
        StringMatches(first);
        forall p | p in rest ensures !p.Match(first.String()) && !p.Match(arg) {
          OneOwner(first, p, first.String());
          OneOwner(first, p, arg);
        }
        UpdatedArgMeaning(rest, first.String());
      } else {
        UpdatedArgMeaning(rest, arg);
      }
    }
  }

  /** Rendering does not move an argument from one owner to another. */
  lemma UpdatedArgOwner(props: seq<MatchStringer>, arg: string, p: MatchStringer)
    requires Disjoint(props)
    requires p in props || forall q :: q in props ==> Unrelated(p.prefix, q.prefix)
    ensures p.Match(UpdatedArg(props, arg)) <==> p.Match(arg)
  {
    UpdatedArgMeaning(props, arg);
    if q :| q in props && q.Match(arg) {
      StringMatches(q);
      if q != p {
        assert Unrelated(p.prefix, q.prefix);
        OneOwner(q, p, arg);
        OneOwner(q, p, q.String());
      }
    }
  }

  lemma {:induction false} MissingMeaning(props: seq<MatchStringer>, args: seq<string>)
    ensures forall s :: s in MissingArgs(props, args) ==> exists p :: p in props && s == p.String() && !Mentioned(p, args)
    ensures forall p :: p in props && !Mentioned(p, args) ==> p.String() in MissingArgs(props, args)
    ensures (forall p :: p in props ==> Mentioned(p, args)) ==> MissingArgs(props, args) == []
  {
    if props != [] {
      MissingMeaning(props[1..], args);
      var m := MissingArgs(props[1..], args);
      forall s | s in m ensures exists p :: p in props && s == p.String() && !Mentioned(p, args) {
        var p :| p in props[1..] && s == p.String() && !Mentioned(p, args);
        assert p in props;
      }
    }
  }

  /** The rewritten list as seen by a caller: every argument owned by a flag has that flag's
      text, each flag occurs, every other argument keeps its place and text. */
  ghost predicate IsRewriting(props: seq<MatchStringer>, args: seq<string>, r: seq<string>) {
    && |args| <= |r| <= |args| + |props|
    && (forall i, p :: 0 <= i < |r| && p in props && p.Match(r[i]) ==> r[i] == p.String())
    && (forall p :: p in props ==> Mentioned(p, r))
    && (forall i :: 0 <= i < |args| && (forall p :: p in props ==> !p.Match(args[i])) ==> r[i] == args[i])
    && (forall i, p :: 0 <= i < |args| && p in props && p.Match(args[i]) ==> r[i] == p.String())
    && (forall i :: |args| <= i < |r| ==> exists p :: p in props && r[i] == p.String() && !Mentioned(p, args))
  }

  lemma UpdatedArgsMeaning(props: seq<MatchStringer>, args: seq<string>)
    requires Disjoint(props)
    ensures var u := UpdatedArgs(props, args);
      && (forall i, p :: 0 <= i < |u| && p in props && p.Match(args[i]) ==> u[i] == p.String())
      && (forall i :: 0 <= i < |u| && (forall p :: p in props ==> !p.Match(args[i])) ==> u[i] == args[i])
      && (forall i, p :: 0 <= i < |u| && p in props ==> (p.Match(u[i]) <==> p.Match(args[i])))
      && (forall p :: p in props ==> (Mentioned(p, u) <==> Mentioned(p, args)))
  {
    var u := UpdatedArgs(props, args);
    forall i | 0 <= i < |args|
      ensures forall p :: p in props && p.Match(args[i]) ==> u[i] == p.String()
      ensures (forall p :: p in props ==> !p.Match(args[i])) ==> u[i] == args[i]
    {
      UpdatedArgMeaning(props, args[i]);
    }
    forall i, p | 0 <= i < |args| && p in props ensures p.Match(u[i]) <==> p.Match(args[i]) {
      UpdatedArgOwner(props, args[i], p);
    }
  }

  lemma AppendedMentions(props: seq<MatchStringer>, u: seq<string>, m: seq<string>)
    requires forall p :: p in props && !Mentioned(p, u) ==> p.String() in m
    ensures forall p :: p in props ==> Mentioned(p, u + m)
  {
    forall p | p in props ensures Mentioned(p, u + m) {
      if Mentioned(p, u) {
        var i :| 0 <= i < |u| && p.Match(u[i]);
        assert (u + m)[i] == u[i];
      } else {
        StringMatches(p);
        var i :| 0 <= i < |m| && m[i] == p.String();
        assert (u + m)[|u| + i] == m[i];
      }
    }
  }

  lemma AppendedValues(props: seq<MatchStringer>, m: seq<string>)
    requires Disjoint(props)
    requires forall s :: s in m ==> exists p :: p in props && s == p.String()
    ensures forall i, p :: 0 <= i < |m| && p in props && p.Match(m[i]) ==> m[i] == p.String()
  {
    forall i, p | 0 <= i < |m| && p in props && p.Match(m[i]) ensures m[i] == p.String() {
      assert m[i] in m;
      var q :| q in props && m[i] == q.String();
      StringMatches(q);
      if q != p { assert Unrelated(p.prefix, q.prefix); OneOwner(q, p, m[i]); }
    }
  }

  lemma ArgsRewritten(props: seq<MatchStringer>, args: seq<string>)
    requires Disjoint(props)
    ensures IsRewriting(props, args, RewrittenArgs(props, args))
  {
    var u := UpdatedArgs(props, args);
    var m := MissingArgs(props, u);
    UpdatedArgsMeaning(props, args);
    MissingMeaning(props, u);
    AppendedMentions(props, u, m);
    AppendedValues(props, m);
    forall s | s in m ensures exists p :: p in props && s == p.String() && !Mentioned(p, args) {
      var p :| p in props && s == p.String() && !Mentioned(p, u);
      assert !Mentioned(p, args);
    }
    RewritingOfParts(props, args, u, m);
  }

  lemma RewritingOfParts(props: seq<MatchStringer>, args: seq<string>, u: seq<string>, m: seq<string>)
    requires |u| == |args| && |m| <= |props|
    requires forall i, p :: 0 <= i < |u| && p in props && p.Match(args[i]) ==> u[i] == p.String()
    requires forall i :: 0 <= i < |u| && (forall p :: p in props ==> !p.Match(args[i])) ==> u[i] == args[i]
    requires forall i, p :: 0 <= i < |u| && p in props ==> (p.Match(u[i]) <==> p.Match(args[i]))
    requires forall s :: s in m ==> exists p :: p in props && s == p.String() && !Mentioned(p, args)
    requires forall i, p :: 0 <= i < |m| && p in props && p.Match(m[i]) ==> m[i] == p.String()
    requires forall p :: p in props ==> Mentioned(p, u + m)
    ensures IsRewriting(props, args, u + m)
  {
    hide Mentioned;
    var r := u + m;
    assert forall i :: 0 <= i < |u| ==> r[i] == u[i];
    assert forall i :: |u| <= i < |r| ==> r[i] == m[i - |u|] && r[i] in m;
    forall i, p | 0 <= i < |r| && p in props && p.Match(r[i]) ensures r[i] == p.String() {
      if i < |u| { assert p.Match(u[i]); }
    }
  }

  lemma RewrittenIsFixed(props: seq<MatchStringer>, args: seq<string>, r: seq<string>)
    requires Disjoint(props) && IsRewriting(props, args, r)
    ensures RewrittenArgs(props, r) == r
  {
    forall i | 0 <= i < |r| ensures UpdatedArg(props, r[i]) == r[i] {
      UpdatedArgMeaning(props, r[i]);
      if p :| p in props && p.Match(r[i]) {
        assert r[i] == p.String();
      }
    }
    assert UpdatedArgs(props, r) == r;
    MissingMeaning(props, r);
  }

  /** A second pass changes nothing. */
  lemma RewritingIsIdempotent(props: seq<MatchStringer>, args: seq<string>)
    requires Disjoint(props)
    ensures RewrittenArgs(props, RewrittenArgs(props, args)) == RewrittenArgs(props, args)
  {
    ArgsRewritten(props, args);
    RewrittenIsFixed(props, args, RewrittenArgs(props, args));
  }

  ghost predicate FirstIs(p: MatchStringer, args: seq<string>) {
    exists i :: 0 <= i < |args| && args[i] == p.String() && forall j :: 0 <= j < i ==> !p.Match(args[j])
  }

  lemma {:induction false} WithFirstMeaning(p: MatchStringer, args: seq<string>)
    ensures FirstIs(p, WithFirst(p, args))
  {
    var r := WithFirst(p, args);
    if args == [] || p.Match(args[0]) {
      assert r[0] == p.String();
    } else {
      WithFirstMeaning(p, args[1..]);
      var rest := WithFirst(p, args[1..]);
      var i :| 0 <= i < |rest| && rest[i] == p.String() && forall j :: 0 <= j < i ==> !p.Match(rest[j]);
      assert r[i + 1] == p.String();
      assert forall j :: 0 < j < i + 1 ==> r[j] == rest[j - 1];
    }
  }

  lemma {:induction false} WithFirstFixed(p: MatchStringer, args: seq<string>)
    requires FirstIs(p, args)
    ensures WithFirst(p, args) == args
  {
    StringMatches(p);
    var i :| 0 <= i < |args| && args[i] == p.String() && forall j :: 0 <= j < i ==> !p.Match(args[j]);
    if i > 0 {
      var rest := args[1..];
      assert rest[i - 1] == p.String();
      assert forall j :: 0 <= j < i - 1 ==> rest[j] == args[j + 1];
      WithFirstFixed(p, rest);
    }
  }

  lemma FirstSurvives(props: seq<MatchStringer>, p: MatchStringer, args: seq<string>)
    requires Disjoint(props) && forall q :: q in props ==> Unrelated(p.prefix, q.prefix)
    requires FirstIs(p, args)
    ensures FirstIs(p, RewrittenArgs(props, args))
  {
    StringMatches(p);
    var i :| 0 <= i < |args| && args[i] == p.String() && forall j :: 0 <= j < i ==> !p.Match(args[j]);
    var r := RewrittenArgs(props, args);
    forall q | q in props ensures !q.Match(args[i]) { OneOwner(p, q, args[i]); }
    UpdatedArgMeaning(props, args[i]);
    assert r[i] == p.String();
    forall j | 0 <= j < i ensures !p.Match(r[j]) {
      UpdatedArgOwner(props, args[j], p);
    }
  }

  /** Pinning p first and then rewriting the other flags is stable as a whole. */
  lemma PinnedRewriteIsFixed(props: seq<MatchStringer>, p: MatchStringer, args: seq<string>)
    requires Disjoint(props) && forall q :: q in props ==> Unrelated(p.prefix, q.prefix)
    ensures var r := RewrittenArgs(props, WithFirst(p, args));
      && FirstIs(p, r)
      && IsRewriting(props, WithFirst(p, args), r)
      && RewrittenArgs(props, WithFirst(p, r)) == r
  {
    var s := WithFirst(p, args);
    WithFirstMeaning(p, args);
    FirstSurvives(props, p, s);
    WithFirstFixed(p, RewrittenArgs(props, s));
    ArgsRewritten(props, s);
    RewritingIsIdempotent(props, s);
  }

  // ---- the flags of KEDA --------------------------------------------------

  const ZAP_LOG_LEVEL := "--zap-log-level"
  const ZAP_ENCODER := "--zap-encoder"
  const ZAP_TIME_ENCODING := "--zap-time-encoding"
  const LOG_TO_STDERR := "--logtostderr"

  function LevelProp(cfg: LoggingCommonCfg): MatchStringer {
    MatchStringer(ZAP_LOG_LEVEL, if cfg.level.Some? then cfg.level.value else "info")
  }

  function FormatProp(cfg: LoggingCommonCfg): MatchStringer {
    MatchStringer(ZAP_ENCODER, if cfg.format.Some? then cfg.format.value else "console")
  }

  function TimeEncodingProp(cfg: LoggingCommonCfg): MatchStringer {
    MatchStringer(ZAP_TIME_ENCODING, if cfg.timeEncoding.Some? then cfg.timeEncoding.value else "rfc3339")
  }

  function Props(cfg: LoggingCommonCfg): seq<MatchStringer> {
    [LevelProp(cfg), FormatProp(cfg), TimeEncodingProp(cfg)]
  }

  /** "text" is an alias of "console", the only encoder zap accepts besides "json". */
  function SanitizedCfg(cfg: LoggingCommonCfg): LoggingCommonCfg {
    if cfg.format == Some("text") then cfg.(format := Some("console")) else cfg
  }

  /** The legacy flag of the metrics server: true forces the console encoder. */
  function StderrProp(format: Option<string>): MatchStringer {
    MatchStringer(LOG_TO_STDERR, if format == Some("json") then "false" else "true")
  }

  lemma PrefixesUnrelated()
    ensures Unrelated(ZAP_LOG_LEVEL, ZAP_ENCODER) && Unrelated(ZAP_LOG_LEVEL, ZAP_TIME_ENCODING)
    ensures Unrelated(ZAP_ENCODER, ZAP_TIME_ENCODING)
    ensures Unrelated(LOG_TO_STDERR, ZAP_LOG_LEVEL) && Unrelated(LOG_TO_STDERR, ZAP_ENCODER)
    ensures Unrelated(LOG_TO_STDERR, ZAP_TIME_ENCODING)
  {
    assert ZAP_LOG_LEVEL[6] == 'l' && ZAP_ENCODER[6] == 'e' && ZAP_TIME_ENCODING[6] == 't';
    assert LOG_TO_STDERR[2] == 'l' && ZAP_LOG_LEVEL[2] == ZAP_ENCODER[2] == ZAP_TIME_ENCODING[2] == 'z';
  }

  lemma PropsDisjoint(cfg: LoggingCommonCfg, format: Option<string>)
    ensures Disjoint(Props(cfg))
    ensures forall q :: q in Props(cfg) ==> Unrelated(StderrProp(format).prefix, q.prefix)
  {
    PrefixesUnrelated();
  }

  function RewrittenLogging(cfg: LoggingCommonCfg, args: seq<string>): seq<string> {
    RewrittenArgs(Props(cfg), args)
  }

  function RewrittenMetricsLogging(cfg: LoggingCommonCfg, args: seq<string>): seq<string> {
    RewrittenArgs(Props(cfg), WithFirst(StderrProp(cfg.format), args))
  }

  /** For every argument list and configuration: all zap flags rendered, each present, nothing
      else touched, at most three arguments more, and stable under a second pass. */
  lemma LoggingRewritten(cfg: LoggingCommonCfg, args: seq<string>)
    ensures IsRewriting(Props(cfg), args, RewrittenLogging(cfg, args))
    ensures |RewrittenLogging(cfg, args)| <= |args| + 3
    ensures RewrittenLogging(cfg, RewrittenLogging(cfg, args)) == RewrittenLogging(cfg, args)
  {
    PropsDisjoint(cfg, None);
    ArgsRewritten(Props(cfg), args);
    RewritingIsIdempotent(Props(cfg), args);
  }

  /** The formats the CRD's enum allows, or none given. */
  predicate AllowedFormat(format: Option<string>) {
    format.None? || format.value in {"json", "text", "console"}
  }

  lemma EncoderText(cfg0: LoggingCommonCfg)
    requires AllowedFormat(cfg0.format)
    ensures var cfg := SanitizedCfg(cfg0); var json := cfg0.format == Some("json");
      && StderrProp(cfg.format) == MatchStringer(LOG_TO_STDERR, if json then "false" else "true")
      && FormatProp(cfg) == MatchStringer(ZAP_ENCODER, if json then "json" else "console")
  {
    assert "console"[0] == 'c' && "json"[0] == 'j' && "text"[0] == 't';
  }

  /** klog and zap agree: the first --logtostderr says false exactly when every encoder flag says
      json, no encoder but json and console is ever written, and a second rewrite changes nothing. */
  lemma MetricsServerConsistent(cfg0: LoggingCommonCfg, args: seq<string>)
    requires AllowedFormat(cfg0.format)
    ensures var cfg := SanitizedCfg(cfg0); var json := cfg0.format == Some("json");
      var r := RewrittenMetricsLogging(cfg, args);
      var encoder := MatchStringer(ZAP_ENCODER, if json then "json" else "console");
      && FirstIs(MatchStringer(LOG_TO_STDERR, if json then "false" else "true"), r)
      && Mentioned(encoder, r)
      && (forall i :: 0 <= i < |r| && encoder.Match(r[i]) ==> r[i] == encoder.String())
      && RewrittenMetricsLogging(cfg, r) == r
  {
    var cfg := SanitizedCfg(cfg0);
    EncoderText(cfg0);
    PropsDisjoint(cfg, cfg.format);
    assert FormatProp(cfg) in Props(cfg);
    PinnedRewriteIsFixed(Props(cfg), StderrProp(cfg.format), args);
  }
}
