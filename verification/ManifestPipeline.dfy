/** From a parsed manifest to its Compose document: interpolate, validate, translate, write. */
module ManifestPipeline {
  import opened Common
  import opened Manifest
  import opened Placeholders
  import opened Interpolate
  import opened Compose
  import opened ComposeTheorems

  datatype CompileError = InterpolateFailed | Invalid | TranslateFailed

  function ContextOf(app: App, env: map<string, string>): Context {
    Context(Builtins(WithVersion(app)), env)
  }

  /** The manifest can come out of interpolation as the other one. */
  ghost predicate Interpolated(app: App, env: map<string, string>, b: App) {
    AppBecame(WithVersion(app), b, true, ContextOf(app, env))
  }

  /** How compilation goes on from an interpolated manifest. */
  ghost predicate EndsFrom(b: App, hostOk: string -> bool, res: Resolver, root: string, r: Result<Document, CompileError>) {
    if !Validate(b, hostOk) then r == Err(Invalid)
    else if !Translates(b, res) then r == Err(TranslateFailed)
    else r.Ok? && DocumentOf(r.value, b, res, root)
  }

  /** What a compilation may end with, whatever orders the maps are walked in. */
  ghost predicate Outcome(app: App, env: map<string, string>, hostOk: string -> bool, res: Resolver, root: string,
                          r: Result<Document, CompileError>)
  {
    if r == Err(InterpolateFailed) then exists x :: AppMentions(WithVersion(app), x) && Fails(x, ContextOf(app, env))
    else exists b :: Interpolated(app, env, b) && EndsFrom(b, hostOk, res, root, r)
  }

  method Compile(app: App, env: map<string, string>, hostOk: string -> bool, res: Resolver, volumeRoot: string)
    returns (r: Result<Document, CompileError>)
    ensures Outcome(app, env, hostOk, res, Root(volumeRoot), r)
  {
    hide AppBecame, AppMentions, Fails, DocumentOf, Translates, Validate;
    var draft := new Draft(app);
    var ok := draft.Interpolate(env);
    if !ok {
      return Err(InterpolateFailed);
    }
    assert Interpolated(app, env, draft.app);
    if !Validate(draft.app, hostOk) {
      r := Err(Invalid);
    } else {
      var doc := TranslateIR(draft.app, res, volumeRoot);
      r := match doc case None => Err(TranslateFailed) case Some(d) => Ok(d);
    }
    assert EndsFrom(draft.app, hostOk, res, Root(volumeRoot), r);
  }

  /** A manifest of nice texts: each is well-formed, and no builtin it mentions has a value that mentions another one. */
  ghost predicate Nice(app: App, env: map<string, string>) {
    GoodBuiltins(ContextOf(app, env).builtins) && AppNice(WithVersion(app), ContextOf(app, env))
  }

  lemma InterpolatedIs(app: App, env: map<string, string>, b: App)
    requires Nice(app, env) && Interpolated(app, env, b)
    ensures !AppNamesUnset(WithVersion(app), ContextOf(app, env))
    ensures b == AppValue(WithVersion(app), ContextOf(app, env))
  {
    NoEmptyBuiltin(ContextOf(app, env).builtins);
    InterpolationIsDetermined(WithVersion(app), b, true, ContextOf(app, env));
  }

  lemma FailureNamesUnset(app: App, env: map<string, string>)
    requires Nice(app, env)
    requires exists x :: AppMentions(WithVersion(app), x) && Fails(x, ContextOf(app, env))
    ensures AppNamesUnset(WithVersion(app), ContextOf(app, env))
  {
    hide Fails, NamesUnset, WellFormed, AppMentions, GoodBuiltins;
    var raw, cx := WithVersion(app), ContextOf(app, env);
    var x :| AppMentions(raw, x) && Fails(x, cx);
    assert NiceText(x, cx);
    RendersIff(x, cx);
  }

  /** Which outcome it is, for a nice manifest: each stage fails exactly on the manifest in which every text is its
      simultaneous substitution, and success gives the document of that manifest. */
  lemma OutcomeIs(app: App, env: map<string, string>, hostOk: string -> bool, res: Resolver, root: string,
                  r: Result<Document, CompileError>)
    requires Nice(app, env) && Outcome(app, env, hostOk, res, root, r)
    ensures var raw, cx := WithVersion(app), ContextOf(app, env);
      var value := AppValue(raw, cx);
      && (r == Err(InterpolateFailed) <==> AppNamesUnset(raw, cx))
      && (r == Err(Invalid) <==> !AppNamesUnset(raw, cx) && !Validate(value, hostOk))
      && (r == Err(TranslateFailed) <==> !AppNamesUnset(raw, cx) && Validate(value, hostOk) && !Translates(value, res))
      && (r.Ok? <==> !AppNamesUnset(raw, cx) && Validate(value, hostOk) && Translates(value, res))
      && (r.Ok? ==> DocumentOf(r.value, value, res, root))
  {
    hide AppBecame, AppMentions, Fails, Validate, AppNamesUnset, AppValue, Nice, Interpolated;
    if r == Err(InterpolateFailed) {
      FailureNamesUnset(app, env);
    } else {
      var b :| Interpolated(app, env, b) && EndsFrom(b, hostOk, res, root, r);
      InterpolatedIs(app, env, b);
    }
  }

  lemma ErrorsAre(r: Result<Document, CompileError>)
    ensures r.Ok? || r == Err(InterpolateFailed) || r == Err(Invalid) || r == Err(TranslateFailed)
  {
    if r.Err? {
      match r.error
      case InterpolateFailed =>
      case Invalid =>
      case TranslateFailed =>
    }
  }

  /** One manifest compiles to one result: although interpolation, translation and writing walk maps in arbitrary
      orders, any two compilations of a nice manifest end with the same error or the same document. */
  lemma CompilesOnce(app: App, env: map<string, string>, hostOk: string -> bool, res: Resolver, root: string,
                     r: Result<Document, CompileError>, r': Result<Document, CompileError>)
    requires Nice(app, env) && Outcome(app, env, hostOk, res, root, r) && Outcome(app, env, hostOk, res, root, r')
    ensures r == r'
  {
    hide AppNice, Outcome, DocumentOf, Validate, Translates, AppNamesUnset, AppValue, GoodBuiltins;
    OutcomeIs(app, env, hostOk, res, root, r);
    OutcomeIs(app, env, hostOk, res, root, r');
    ErrorsAre(r);
    ErrorsAre(r');
    if r.Ok? && r'.Ok? {
      DocumentIsUnique(AppValue(WithVersion(app), ContextOf(app, env)), res, root, r.value, r'.value);
    }
  }
}
