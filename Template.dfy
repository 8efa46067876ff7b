/**
 * The text-generation core of helpers/template.py: select the additive and
 * multiplicative models, build one `m.def(...)` registration per model while
 * sorting names into buckets, and splice the results into the template text
 * at its three markers.
 */
module Template {
  import opened Wrappers
  import opened Text
  import opened Seqs

  /** One parsed model.dat entry; only the number of parameters is used. */
  datatype ModelRecord = ModelRecord(
    name: string,
    modeltype: string,
    language: string,
    funcname: string,
    pars: seq<string>)

  /** The run's fatal exits, each with what its diagnostic line reports. */
  datatype Error =
    | ParseEmpty
    | NoEligibleModels
    | UnrecognizedLanguage(name: string, funcname: string, language: string)
    | MissingMarker(term: string)

  /** What a successful run returns, with the generated file's text in place of its path. */
  datatype Summary = Summary(
    text: string,
    models: seq<string>,
    allmodels: seq<string>,
    additive: seq<string>,
    multiplicative: seq<string>,
    cxx: seq<string>,
    c: seq<string>,
    f77: seq<string>)

  const ADD_MARKER := "@@ADDMODELS@@"
  const MUL_MARKER := "@@MULMODELS@@"
  const MODELS_MARKER := "@@MODELS@@"

  const FORTRAN_LANGUAGE := "Fortran - single precision"
  const CXX_LANGUAGE := "C++ style"
  const C_LANGUAGE := "C style"

  const ARG_BINDINGS := "\"pars\"_a,\"energies\"_a,\"spectrum\"_a=1"
  const INIT_BINDING := ",\"initStr\"_a=\"\""

  /** The binding styles the generator recognises. */
  datatype Style = FortranSingle | CxxStyle | CStyle

  function StyleOf(language: string): Option<Style> {
    if language == FORTRAN_LANGUAGE then Some(FortranSingle)
    else if language == CXX_LANGUAGE then Some(CxxStyle)
    else if language == C_LANGUAGE then Some(CStyle)
    else None
  }

  predicate IsAdd(m: ModelRecord) { m.modeltype == "Add" }
  predicate IsMul(m: ModelRecord) { m.modeltype == "Mul" }
  predicate IsEligible(m: ModelRecord) { m.modeltype in ["Add", "Mul"] }

  predicate Recognized(m: ModelRecord) { StyleOf(m.language).Some? }
  predicate IsF77(m: ModelRecord) { StyleOf(m.language) == Some(FortranSingle) }
  predicate IsCxx(m: ModelRecord) { StyleOf(m.language) == Some(CxxStyle) }
  predicate IsC(m: ModelRecord) { StyleOf(m.language) == Some(CStyle) }

  function NameOf(m: ModelRecord): string { m.name }
  function FuncNameOf(m: ModelRecord): string { m.funcname }

  // ---------------------------------------------------------------------------
  // replace_term

  /** Replaces the first occurrence of `term` in `txt`; a missing term is fatal. */
  function ReplaceTerm(txt: string, term: string, replace: string): (r: Result<string, Error>)
    ensures r.Failure? <==> !Contains(txt, term)
    ensures r.Failure? ==> r.error == MissingMarker(term)
    ensures r.Success? ==>
      exists idx :: IsFirstOccurrence(txt, term, idx) && r.value == txt[..idx] + replace + txt[idx + |term|..]
  {
    var idx := Find(txt, term);
    if idx < 0 then Failure(MissingMarker(term))
    else Success(txt[..idx] + replace + txt[idx + |term|..])
  }

  // ---------------------------------------------------------------------------
  // Specification of the model filter and formatter

  /** The records the generator handles, in file order. */
  function Selected(all: seq<ModelRecord>): (ms: seq<ModelRecord>)
    ensures forall m :: m in ms <==> m in all && m.modeltype in ["Add", "Mul"]
  {
    FilterMembers(IsEligible, all);
    Filter(IsEligible, all)
  }

  function AddNames(ms: seq<ModelRecord>): seq<string> { Map(NameOf, Filter(IsAdd, ms)) }
  function MulNames(ms: seq<ModelRecord>): seq<string> { Map(NameOf, Filter(IsMul, ms)) }
  function F77Names(ms: seq<ModelRecord>): seq<string> { Map(FuncNameOf, Filter(IsF77, ms)) }
  function CxxNames(ms: seq<ModelRecord>): seq<string> { Map(FuncNameOf, Filter(IsCxx, ms)) }
  function CNames(ms: seq<ModelRecord>): seq<string> { Map(FuncNameOf, Filter(IsC, ms)) }

  /** The human-readable category used in a registration's description. */
  function TypeTag(modeltype: string): string
    requires modeltype in ["Add", "Mul"]
  {
    if modeltype == "Add" then "additive" else "multiplicative"
  }

  /** Which C++ wrapper template and symbol the registration calls. */
  function WrapperFragment(style: Style, funcname: string): string {
    match style
    case FortranSingle => "_f<" + funcname + "_"
    case CxxStyle => "_C<C_" + funcname
    case CStyle => "_C<" + funcname
  }

  function RegistrationHead(m: ModelRecord): string {
    "    m.def(\"" + m.name + "\", wrapper"
  }

  function Arity(m: ModelRecord): string {
    ", " + NatToString(|m.pars|) + ">, "
  }

  function Description(m: ModelRecord): string
    requires IsEligible(m)
  {
    "\"The XSPEC " + TypeTag(m.modeltype) + " " + m.name + " model (" + NatToString(|m.pars|) + " parameters).\","
  }

  /**
   * The registration statement, built piece by piece in the order the source
   * appends them; only non-Fortran languages take the init-string argument.
   */
  function RegistrationLine(m: ModelRecord, style: Style): string
    requires IsEligible(m)
  {
    var described := RegistrationHead(m) + WrapperFragment(style, m.funcname) + Arity(m) + Description(m) + ARG_BINDINGS;
    (if StartsWith(m.language, "Fortran") then described else described + INIT_BINDING) + ");"
  }

  /** What `wrapmod` returns for one selected record, or the error it stops with. */
  function Registration(m: ModelRecord): Result<string, Error>
    requires IsEligible(m)
  {
    match StyleOf(m.language)
    case None => Failure(UnrecognizedLanguage(m.name, m.funcname, m.language))
    case Some(style) => Success(RegistrationLine(m, style))
  }

  /** The registrations of a run in which every language is recognised, in record order. */
  function Registrations(ms: seq<ModelRecord>): (r: seq<string>)
    requires forall i :: 0 <= i < |ms| ==> IsEligible(ms[i]) && Recognized(ms[i])
    ensures |r| == |ms|
    decreases |ms|
  {
    if ms == [] then []
    else
      var m := ms[|ms| - 1];
      assert Recognized(m);
      Registrations(ms[..|ms| - 1]) + [Registration(m).value]
  }

  /** The `i`th registration is what `wrapmod` returns for the `i`th record. */
  lemma {:induction false} RegistrationsAt(ms: seq<ModelRecord>, i: nat)
    requires forall j :: 0 <= j < |ms| ==> IsEligible(ms[j]) && Recognized(ms[j])
    requires i < |ms|
    ensures Registration(ms[i]) == Success(Registrations(ms)[i])
    decreases |ms|
  {
    if i < |ms| - 1 {
      var prefix := ms[..|ms| - 1];
      assert prefix[i] == ms[i];
      RegistrationsAt(prefix, i);
    } else {
      assert Recognized(ms[i]);
    }
  }

  /** The index of the first record whose language is not recognised. */
  function FirstUnrecognized(ms: seq<ModelRecord>): (r: Option<nat>)
    ensures r.None? <==> forall i :: 0 <= i < |ms| ==> Recognized(ms[i])
    ensures r.Some? ==>
      && r.value < |ms|
      && !Recognized(ms[r.value])
      && forall j :: 0 <= j < r.value ==> Recognized(ms[j])
    decreases |ms|
  {
    if ms == [] then None
    else if !Recognized(ms[0]) then Some(0)
    else match FirstUnrecognized(ms[1..])
      case None => None
      case Some(k) => Some(k + 1)
  }

  /** The three marker substitutions, each acting on the previous result. */
  function Splice(template: string, add: string, mul: string, defs: string): (r: Result<string, Error>)
    ensures r.Failure? ==> r.error.MissingMarker? && r.error.term in [ADD_MARKER, MUL_MARKER, MODELS_MARKER]
    ensures !Contains(template, ADD_MARKER) ==> r == Failure(MissingMarker(ADD_MARKER))
    ensures Contains(template, ADD_MARKER) ==>
      var t1 := ReplaceTerm(template, ADD_MARKER, add).value;
      && (!Contains(t1, MUL_MARKER) ==> r == Failure(MissingMarker(MUL_MARKER)))
      && (Contains(t1, MUL_MARKER) ==>
            var t2 := ReplaceTerm(t1, MUL_MARKER, mul).value;
            && (!Contains(t2, MODELS_MARKER) ==> r == Failure(MissingMarker(MODELS_MARKER)))
            && (Contains(t2, MODELS_MARKER) ==> r == ReplaceTerm(t2, MODELS_MARKER, defs) && r.Success?))
  {
    var out :- ReplaceTerm(template, ADD_MARKER, add);
    var out :- ReplaceTerm(out, MUL_MARKER, mul);
    ReplaceTerm(out, MODELS_MARKER, defs)
  }

  /**
   * The checks made before any text is generated: records were parsed, at
   * least one is additive or multiplicative, and every selected record's
   * language is one of the three known ones. On success, the selection.
   */
  function Validate(all: seq<ModelRecord>): (r: Result<seq<ModelRecord>, Error>)
    ensures r == Failure(ParseEmpty) <==> |all| == 0
    ensures r == Failure(NoEligibleModels) <==> |all| > 0 && |Selected(all)| == 0
    ensures r.Success? <==>
      |all| > 0 && |Selected(all)| > 0 && forall i :: 0 <= i < |Selected(all)| ==> Recognized(Selected(all)[i])
    ensures r.Success? ==> r.value == Selected(all)
    ensures r.Failure? ==> !r.error.MissingMarker?
    ensures r.Failure? && r.error.UnrecognizedLanguage? ==>
      exists k :: 0 <= k < |Selected(all)| && !Recognized(Selected(all)[k])
        && (forall j :: 0 <= j < k ==> Recognized(Selected(all)[j]))
        && r.error == UnrecognizedLanguage(Selected(all)[k].name, Selected(all)[k].funcname, Selected(all)[k].language)
  {
    if |all| == 0 then Failure(ParseEmpty)
    else
      var ms := Selected(all);
      if |ms| == 0 then Failure(NoEligibleModels)
      else match FirstUnrecognized(ms)
        case Some(k) => Failure(UnrecognizedLanguage(ms[k].name, ms[k].funcname, ms[k].language))
        case None => Success(ms)
  }

  /** The summary of a run that selected `ms` out of `all` and generated `text`. */
  function Summarize(all: seq<ModelRecord>, ms: seq<ModelRecord>, text: string): (s: Summary)
    ensures s.text == text
    ensures |s.models| == |ms| && |s.allmodels| == |all|
  {
    Summary(text, Map(NameOf, ms), Map(NameOf, all), AddNames(ms), MulNames(ms), CxxNames(ms), CNames(ms), F77Names(ms))
  }

  /** The whole run on parsed records and template text: what `Apply` must compute. */
  function Generate(all: seq<ModelRecord>, template: string): (r: Result<Summary, Error>)
    ensures r == Failure(ParseEmpty) <==> |all| == 0
    ensures r == Failure(NoEligibleModels) <==>
      |all| > 0 && forall m :: m in all ==> m.modeltype !in ["Add", "Mul"]
    ensures (exists m :: m in all && IsEligible(m) && !Recognized(m)) <==>
      r.Failure? && r.error.UnrecognizedLanguage?
    ensures r.Failure? && r.error.UnrecognizedLanguage? ==>
      exists m :: m in all && IsEligible(m) && !Recognized(m)
        && r.error == UnrecognizedLanguage(m.name, m.funcname, m.language)
    ensures r.Failure? && r.error.MissingMarker? ==> r.error.term in [ADD_MARKER, MUL_MARKER, MODELS_MARKER]
    ensures Validate(all).Success? && !Contains(template, ADD_MARKER) ==> r == Failure(MissingMarker(ADD_MARKER))
  {
    var ms :- Validate(all);
    var text :- Splice(template, Join("\n", AddNames(ms)), Join("\n", MulNames(ms)),
                       Join("\n", Registrations(ms)));
    Success(Summarize(all, ms, text))
  }

  // ---------------------------------------------------------------------------
  // The generator as the source runs it

  /** The five lists that `wrapmod` fills as a side effect. */
  class Buckets {
    var addmodels: seq<string>
    var mulmodels: seq<string>
    var f77models: seq<string>
    var cxxmodels: seq<string>
    var cmodels: seq<string>

    constructor ()
      ensures addmodels == [] && mulmodels == []
      ensures f77models == [] && cxxmodels == [] && cmodels == []
    {
      addmodels, mulmodels := [], [];
      f77models, cxxmodels, cmodels := [], [], [];
    }

    /**
     * Builds the registration of one selected record. The name is filed by
     * category before the language is looked at, so a record with an unknown
     * language still leaves its name behind.
     */
    method WrapMod(m: ModelRecord) returns (r: Result<string, Error>)
      requires IsEligible(m)
      modifies this
      ensures r == Registration(m)
      ensures addmodels == old(addmodels) + (if IsAdd(m) then [m.name] else [])
      ensures mulmodels == old(mulmodels) + (if IsMul(m) then [m.name] else [])
      ensures f77models == old(f77models) + (if IsF77(m) then [m.funcname] else [])
      ensures cxxmodels == old(cxxmodels) + (if IsCxx(m) then [m.funcname] else [])
      ensures cmodels == old(cmodels) + (if IsC(m) then [m.funcname] else [])
    {
      var npars := |m.pars|;
      var mtype: string;
      if m.modeltype == "Add" {
        mtype := "additive";
        addmodels := addmodels + [m.name];
      } else if m.modeltype == "Mul" {
        mtype := "multiplicative";
        mulmodels := mulmodels + [m.name];
      } else {
        assert false;
      }

      var out := "    m.def(\"" + m.name + "\", wrapper";
      var style: Style;
      if m.language == FORTRAN_LANGUAGE {
        out := out + ("_f<" + m.funcname + "_");
        f77models := f77models + [m.funcname];
        style := FortranSingle;
      } else if m.language == CXX_LANGUAGE {
        out := out + ("_C<C_" + m.funcname);
        cxxmodels := cxxmodels + [m.funcname];
        style := CxxStyle;
      } else if m.language == C_LANGUAGE {
        out := out + ("_C<" + m.funcname);
        cmodels := cmodels + [m.funcname];
        style := CStyle;
      } else {
        return Failure(UnrecognizedLanguage(m.name, m.funcname, m.language));
      }

      out := out + (", " + NatToString(npars) + ">, ");
      out := out + ("\"The XSPEC " + mtype + " " + m.name + " model (" + NatToString(npars) + " parameters).\",");
      out := out + ARG_BINDINGS;
      if !StartsWith(m.language, "Fortran") {
        out := out + INIT_BINDING;
      }
      out := out + ");";
      return Success(out);
    }
  }

  /** Filing one more record extends each bucket by at most that record's entry. */
  lemma BucketsGrow(ms: seq<ModelRecord>, i: nat)
    requires i < |ms|
    ensures AddNames(ms[..i + 1]) == AddNames(ms[..i]) + (if IsAdd(ms[i]) then [ms[i].name] else [])
    ensures MulNames(ms[..i + 1]) == MulNames(ms[..i]) + (if IsMul(ms[i]) then [ms[i].name] else [])
    ensures F77Names(ms[..i + 1]) == F77Names(ms[..i]) + (if IsF77(ms[i]) then [ms[i].funcname] else [])
    ensures CxxNames(ms[..i + 1]) == CxxNames(ms[..i]) + (if IsCxx(ms[i]) then [ms[i].funcname] else [])
    ensures CNames(ms[..i + 1]) == CNames(ms[..i]) + (if IsC(ms[i]) then [ms[i].funcname] else [])
  {
    MapFilterGrow(NameOf, IsAdd, ms, i);
    MapFilterGrow(NameOf, IsMul, ms, i);
    MapFilterGrow(FuncNameOf, IsF77, ms, i);
    MapFilterGrow(FuncNameOf, IsCxx, ms, i);
    MapFilterGrow(FuncNameOf, IsC, ms, i);
  }

  /** One more recognised record adds its registration at the end. */
  lemma RegistrationsGrow(ms: seq<ModelRecord>, i: nat)
    requires i < |ms|
    requires forall j :: 0 <= j <= i ==> IsEligible(ms[j]) && Recognized(ms[j])
    ensures Registration(ms[i]).Success?
    ensures Registrations(ms[..i + 1]) == Registrations(ms[..i]) + [Registration(ms[i]).value]
  {
    var prefix := ms[..i + 1];
    assert prefix[..i] == ms[..i] && prefix[i] == ms[i];
    assert Recognized(ms[i]);
  }

  /** Where the first unrecognised language stops the run. */
  lemma GenerateStopsAt(all: seq<ModelRecord>, template: string, k: nat)
    requires |all| > 0 && k < |Selected(all)|
    requires !Recognized(Selected(all)[k])
    requires forall j :: 0 <= j < k ==> Recognized(Selected(all)[j])
    ensures var m := Selected(all)[k];
      Generate(all, template) == Failure(UnrecognizedLanguage(m.name, m.funcname, m.language))
  {
    var ms := Selected(all);
    var f := FirstUnrecognized(ms);
    assert f.Some?;
    assert !Recognized(ms[f.value]) && !Recognized(ms[k]);
  }

  /** When every selected language is recognised, only the splice can still fail. */
  lemma GenerateSplices(all: seq<ModelRecord>, template: string)
    requires |all| > 0 && |Selected(all)| > 0
    requires forall j :: 0 <= j < |Selected(all)| ==> Recognized(Selected(all)[j])
    ensures var ms := Selected(all);
      Generate(all, template) ==
        match Splice(template, Join("\n", AddNames(ms)), Join("\n", MulNames(ms)), Join("\n", Registrations(ms)))
        case Failure(e) => Failure(e)
        case Success(text) => Success(Summarize(all, ms, text))
  {
  }

  /**
   * `apply` without its file-system steps: the parsed records and the
   * template text come in, the summary with the generated text goes out.
   */
  method Apply(allmodels: seq<ModelRecord>, template: string) returns (r: Result<Summary, Error>)
    ensures r == Generate(allmodels, template)
  {
    if |allmodels| == 0 {
      return Failure(ParseEmpty);
    }
    var models := Selected(allmodels);
    if |models| == 0 {
      return Failure(NoEligibleModels);
    }

    var buckets := new Buckets();
    var mstrs: seq<string> := [];
    var i := 0;
    while i < |models|
      invariant 0 <= i <= |models|
      invariant forall j :: 0 <= j < |models| ==> IsEligible(models[j])
      invariant forall j :: 0 <= j < i ==> Recognized(models[j])
      invariant mstrs == Registrations(models[..i])
      invariant buckets.addmodels == AddNames(models[..i])
      invariant buckets.mulmodels == MulNames(models[..i])
      invariant buckets.f77models == F77Names(models[..i])
      invariant buckets.cxxmodels == CxxNames(models[..i])
      invariant buckets.cmodels == CNames(models[..i])
    {
      var m := models[i];
      var line := buckets.WrapMod(m);
      if line.Failure? {
        GenerateStopsAt(allmodels, template, i);
        return Failure(line.error);
      }
      BucketsGrow(models, i);
      RegistrationsGrow(models, i);
      mstrs := mstrs + [line.value];
      i := i + 1;
    }
    assert models[..i] == models;
    GenerateSplices(allmodels, template);

    var out := template;
    out :- ReplaceTerm(out, ADD_MARKER, Join("\n", buckets.addmodels));
    out :- ReplaceTerm(out, MUL_MARKER, Join("\n", buckets.mulmodels));
    out :- ReplaceTerm(out, MODELS_MARKER, Join("\n", mstrs));

    return Success(Summary(out, Map(NameOf, models), Map(NameOf, allmodels),
                           buckets.addmodels, buckets.mulmodels,
                           buckets.cxxmodels, buckets.cmodels, buckets.f77models));
  }
}
