/**
 * What the generator promises, proved about the specification functions of
 * module Template (and hence, through `Template.Apply`'s postcondition, about
 * the generator itself).
 */
module TemplateProperties {
  import opened Wrappers
  import opened Text
  import opened Seqs
  import opened Template

  predicate AllRecognized(ms: seq<ModelRecord>) {
    forall i :: 0 <= i < |ms| ==> Recognized(ms[i])
  }

  // ---------------------------------------------------------------------------
  // replace_term

  /**
   * A successful replacement splices `replace` over the first occurrence of
   * `term`: what lies before and after it is kept, and the text before it
   * holds no occurrence of a non-empty `term`.
   */
  lemma ReplaceTermSplices(txt: string, term: string, replace: string, idx: int)
    requires IsFirstOccurrence(txt, term, idx)
    ensures ReplaceTerm(txt, term, replace).Success?
    ensures var out := ReplaceTerm(txt, term, replace).value;
      && |out| == |txt| - |term| + |replace|
      && out[..idx] == txt[..idx]
      && out[idx..idx + |replace|] == replace
      && out[idx + |replace|..] == txt[idx + |term|..]
    ensures |term| > 0 ==> !Contains(txt[..idx], term)
  {
    var r := ReplaceTerm(txt, term, replace);
    assert Contains(txt, term);
    var k :| IsFirstOccurrence(txt, term, k) && r.value == txt[..k] + replace + txt[k + |term|..];
    FirstOccurrenceUnique(txt, term, idx, k);
    if |term| > 0 && Contains(txt[..idx], term) {
      var j :| OccursAt(txt[..idx], term, j);
      assert txt[..idx][j..j + |term|] == txt[j..j + |term|];
      assert OccursAt(txt, term, j);
      assert false;
    }
  }

  /** Replacing a term that first occurs right after `pre` swaps it for `replace` there. */
  lemma ReplaceAt(pre: string, term: string, post: string, replace: string)
    requires IsFirstOccurrence(pre + term + post, term, |pre|)
    ensures ReplaceTerm(pre + term + post, term, replace) == Success(pre + replace + post)
  {
    var txt := pre + term + post;
    assert txt[..|pre|] == pre && txt[|pre| + |term|..] == post;
  }

  /** The first of three replacements, on a text holding three terms. */
  lemma ReplaceFirstOfThree(t0: string, x: string, t1: string, y: string, t2: string, z: string, t3: string, a: string)
    requires IsFirstOccurrence(t0 + x + t1 + y + t2 + z + t3, x, |t0|)
    ensures ReplaceTerm(t0 + x + t1 + y + t2 + z + t3, x, a) == Success(t0 + a + t1 + y + t2 + z + t3)
  {
    var post := t1 + y + t2 + z + t3;
    assert t0 + x + t1 + y + t2 + z + t3 == t0 + x + post;
    assert t0 + a + t1 + y + t2 + z + t3 == t0 + a + post;
    ReplaceAt(t0, x, post, a);
  }

  /** The second, on the text the first one left. */
  lemma ReplaceSecondOfThree(t0: string, t1: string, y: string, t2: string, z: string, t3: string, a: string, b: string)
    requires IsFirstOccurrence(t0 + a + t1 + y + t2 + z + t3, y, |t0 + a + t1|)
    ensures ReplaceTerm(t0 + a + t1 + y + t2 + z + t3, y, b) == Success(t0 + a + t1 + b + t2 + z + t3)
  {
    var pre, post := t0 + a + t1, t2 + z + t3;
    assert t0 + a + t1 + y + t2 + z + t3 == pre + y + post;
    assert t0 + a + t1 + b + t2 + z + t3 == pre + b + post;
    ReplaceAt(pre, y, post, b);
  }

  /** The third, on the text the second one left. */
  lemma ReplaceThirdOfThree(t0: string, t1: string, t2: string, z: string, t3: string, a: string, b: string, c: string)
    requires IsFirstOccurrence(t0 + a + t1 + b + t2 + z + t3, z, |t0 + a + t1 + b + t2|)
    ensures ReplaceTerm(t0 + a + t1 + b + t2 + z + t3, z, c) == Success(t0 + a + t1 + b + t2 + c + t3)
  {
    ReplaceAt(t0 + a + t1 + b + t2, z, t3, c);
  }

  /**
   * When each marker first occurs where expected in the text its stage sees,
   * the splice puts each joined list exactly where its marker stood.
   */
  lemma SpliceInPlace(t0: string, t1: string, t2: string, t3: string, add: string, mul: string, defs: string)
    requires IsFirstOccurrence(t0 + ADD_MARKER + t1 + MUL_MARKER + t2 + MODELS_MARKER + t3, ADD_MARKER, |t0|)
    requires IsFirstOccurrence(t0 + add + t1 + MUL_MARKER + t2 + MODELS_MARKER + t3, MUL_MARKER, |t0 + add + t1|)
    requires IsFirstOccurrence(t0 + add + t1 + mul + t2 + MODELS_MARKER + t3, MODELS_MARKER, |t0 + add + t1 + mul + t2|)
    ensures Splice(t0 + ADD_MARKER + t1 + MUL_MARKER + t2 + MODELS_MARKER + t3, add, mul, defs)
      == Success(t0 + add + t1 + mul + t2 + defs + t3)
  {
    ReplaceFirstOfThree(t0, ADD_MARKER, t1, MUL_MARKER, t2, MODELS_MARKER, t3, add);
    ReplaceSecondOfThree(t0, t1, MUL_MARKER, t2, MODELS_MARKER, t3, add, mul);
    ReplaceThirdOfThree(t0, t1, t2, MODELS_MARKER, t3, add, mul, defs);
  }

  /**
   * What `wrapmod` returns for one record: the unknown-language error exactly
   * when the language is none of the three, carrying the record's name,
   * function name and language; otherwise the statement for its style.
   */
  lemma RegistrationOutcome(m: ModelRecord)
    requires IsEligible(m)
    ensures Registration(m).Failure? <==> !Recognized(m)
    ensures Registration(m).Failure? ==>
      Registration(m).error == UnrecognizedLanguage(m.name, m.funcname, m.language)
    ensures Registration(m).Success? ==>
      Registration(m).value == RegistrationLine(m, StyleOf(m.language).value)
  {
  }

  // ---------------------------------------------------------------------------
  // Selection and buckets

  /**
   * The selection is the order-preserving filter on the model type: it
   * distributes over concatenation, keeps exactly the "Add" and "Mul" records,
   * and keeps every record when all of them are eligible.
   */
  lemma {:induction false} SelectedIsOrderedFilter(a: seq<ModelRecord>, b: seq<ModelRecord>)
    ensures Selected(a + b) == Selected(a) + Selected(b)
    ensures forall m :: m in Selected(a) <==> m in a && m.modeltype in ["Add", "Mul"]
    ensures (forall i :: 0 <= i < |a| ==> IsEligible(a[i])) ==> Selected(a) == a
    decreases |a|
  {
    FilterAppend(IsEligible, a, b);
    FilterMembers(IsEligible, a);
    if a != [] && forall i :: 0 <= i < |a| ==> IsEligible(a[i]) {
      var a' := a[..|a| - 1];
      SelectedIsOrderedFilter(a', b);
      assert a' + [a[|a| - 1]] == a;
    }
  }

  /** Every bucket is filled in selection order: each distributes over concatenation. */
  lemma BucketsInOrder(a: seq<ModelRecord>, b: seq<ModelRecord>)
    ensures AddNames(a + b) == AddNames(a) + AddNames(b)
    ensures MulNames(a + b) == MulNames(a) + MulNames(b)
    ensures F77Names(a + b) == F77Names(a) + F77Names(b)
    ensures CxxNames(a + b) == CxxNames(a) + CxxNames(b)
    ensures CNames(a + b) == CNames(a) + CNames(b)
  {
    FilterAppend(IsAdd, a, b);
    MapAppend(NameOf, Filter(IsAdd, a), Filter(IsAdd, b));
    FilterAppend(IsMul, a, b);
    MapAppend(NameOf, Filter(IsMul, a), Filter(IsMul, b));
    FilterAppend(IsF77, a, b);
    MapAppend(FuncNameOf, Filter(IsF77, a), Filter(IsF77, b));
    FilterAppend(IsCxx, a, b);
    MapAppend(FuncNameOf, Filter(IsCxx, a), Filter(IsCxx, b));
    FilterAppend(IsC, a, b);
    MapAppend(FuncNameOf, Filter(IsC, a), Filter(IsC, b));
  }

  /** Each selected record's name lands in exactly one of the two category buckets. */
  lemma CategoryPartition(ms: seq<ModelRecord>)
    requires forall i :: 0 <= i < |ms| ==> IsEligible(ms[i])
    ensures multiset(AddNames(ms)) + multiset(MulNames(ms)) == multiset(Map(NameOf, ms))
    ensures |AddNames(ms)| + |MulNames(ms)| == |ms|
  {
    FilterPartition(NameOf, IsAdd, IsMul, ms);
    assert |multiset(AddNames(ms)) + multiset(MulNames(ms))| == |multiset(Map(NameOf, ms))|;
  }

  /** With every language recognised, each function name lands in exactly one style bucket. */
  lemma StylePartition(ms: seq<ModelRecord>)
    requires AllRecognized(ms)
    ensures multiset(F77Names(ms)) + multiset(CxxNames(ms)) + multiset(CNames(ms)) == multiset(Map(FuncNameOf, ms))
    ensures |F77Names(ms)| + |CxxNames(ms)| + |CNames(ms)| == |ms|
  {
    forall x | x in ms
      ensures ExactlyOne(IsF77, IsCxx, IsC, x)
    {
      var i :| 0 <= i < |ms| && ms[i] == x;
      assert Recognized(ms[i]);
    }
    FilterPartition3(FuncNameOf, IsF77, IsCxx, IsC, ms);
    assert |multiset(F77Names(ms)) + multiset(CxxNames(ms)) + multiset(CNames(ms))| == |multiset(Map(FuncNameOf, ms))|;
  }

  // ---------------------------------------------------------------------------
  // Registration statements

  /** The fixed shape of every registration statement. */
  lemma RegistrationShape(m: ModelRecord)
    requires IsEligible(m) && Registration(m).Success?
    ensures var line, n := Registration(m).value, NatToString(|m.pars|);
      && StartsWith(line, "    m.def(\"" + m.name + "\", wrapper")
      && (IsF77(m) ==> Contains(line, "_f<" + m.funcname + "_"))
      && (IsCxx(m) ==> Contains(line, "_C<C_" + m.funcname))
      && (IsC(m) ==> Contains(line, "_C<" + m.funcname))
      && Contains(line, ", " + n + ">, ")
      && Contains(line, "\"The XSPEC " + TypeTag(m.modeltype) + " " + m.name + " model (" + n + " parameters).\",")
      && Contains(line, ARG_BINDINGS)
      && EndsWith(line, ");")
  {
    var style := StyleOf(m.language).value;
    var head, frag, arity, desc := RegistrationHead(m), WrapperFragment(style, m.funcname), Arity(m), Description(m);
    var init := if StartsWith(m.language, "Fortran") then "" else INIT_BINDING;
    var described := head + frag + arity + desc + ARG_BINDINGS;
    assert Registration(m).value == (if StartsWith(m.language, "Fortran") then described else described + INIT_BINDING) + ");";
    assert (if StartsWith(m.language, "Fortran") then described else described + INIT_BINDING) == described + init;
    var line := described + init + ");";
    // the prefix
    assert head[..|head|] == head;
    StartsWithAppend(head, frag, head);
    StartsWithAppend(head + frag, arity, head);
    StartsWithAppend(head + frag + arity, desc, head);
    StartsWithAppend(head + frag + arity + desc, ARG_BINDINGS, head);
    StartsWithAppend(described, init, head);
    StartsWithAppend(described + init, ");", head);
    // the wrapper fragment
    ContainsEnd(head, frag);
    ContainsAppend(head + frag, arity, frag);
    ContainsAppend(head + frag + arity, desc, frag);
    ContainsAppend(head + frag + arity + desc, ARG_BINDINGS, frag);
    ContainsAppend(described, init, frag);
    ContainsAppend(described + init, ");", frag);
    // the parameter count
    ContainsEnd(head + frag, arity);
    ContainsAppend(head + frag + arity, desc, arity);
    ContainsAppend(head + frag + arity + desc, ARG_BINDINGS, arity);
    ContainsAppend(described, init, arity);
    ContainsAppend(described + init, ");", arity);
    // the description
    ContainsEnd(head + frag + arity, desc);
    ContainsAppend(head + frag + arity + desc, ARG_BINDINGS, desc);
    ContainsAppend(described, init, desc);
    ContainsAppend(described + init, ");", desc);
    // the argument bindings
    ContainsEnd(head + frag + arity + desc, ARG_BINDINGS);
    ContainsAppend(described, init, ARG_BINDINGS);
    ContainsAppend(described + init, ");", ARG_BINDINGS);
    // the end
    assert (described + init + ");")[|described + init|..] == ");";
  }

  /**
   * Only the C and C++ styles get the init-string argument: a statement ends
   * with it exactly when the language does not start with "Fortran", which
   * among the recognised languages means exactly the two C styles.
   */
  lemma InitStrOnlyForCStyles(m: ModelRecord)
    requires IsEligible(m) && Registration(m).Success?
    ensures EndsWith(Registration(m).value, INIT_BINDING + ");") <==> !StartsWith(m.language, "Fortran")
    ensures EndsWith(Registration(m).value, ARG_BINDINGS + ");") <==> StartsWith(m.language, "Fortran")
    ensures !StartsWith(m.language, "Fortran") <==> IsCxx(m) || IsC(m)
  {
    var style := StyleOf(m.language).value;
    var before := RegistrationHead(m) + WrapperFragment(style, m.funcname) + Arity(m) + Description(m);
    var described := before + ARG_BINDINGS;
    assert Registration(m).value == (if StartsWith(m.language, "Fortran") then described else described + INIT_BINDING) + ");";
    LastCharacters();
    if StartsWith(m.language, "Fortran") {
      EndsWithEnd(before, ARG_BINDINGS, ");");
      NotEndsWith(described, ");", INIT_BINDING + ");");
    } else {
      EndsWithEnd(described, INIT_BINDING, ");");
      NotEndsWith(described + INIT_BINDING, ");", ARG_BINDINGS + ");");
    }
    KnownLanguagesAndFortran();
  }

  /** The characters that tell the two endings apart. */
  lemma LastCharacters()
    ensures |ARG_BINDINGS| >= 1 && ARG_BINDINGS[|ARG_BINDINGS| - 1] == '1'
    ensures |INIT_BINDING| >= 1 && INIT_BINDING[|INIT_BINDING| - 1] == '"'
    ensures var c := INIT_BINDING + ");"; |c| > 2 && c[|c| - 3] == '"'
    ensures var c := ARG_BINDINGS + ");"; |c| > 2 && c[|c| - 3] == '1'
  {
  }

  /** Of the three recognised languages, only the Fortran one starts with "Fortran". */
  lemma KnownLanguagesAndFortran()
    ensures StartsWith(FORTRAN_LANGUAGE, "Fortran")
    ensures !StartsWith(CXX_LANGUAGE, "Fortran") && !StartsWith(C_LANGUAGE, "Fortran")
  {
    assert FORTRAN_LANGUAGE[..7] == "Fortran";
    assert CXX_LANGUAGE[0] != 'F' && C_LANGUAGE[0] != 'F';
  }

  // ---------------------------------------------------------------------------
  // The whole run

  /**
   * The summary of a run: it lists every parsed and every selected name in
   * order, and the names and function names are partitioned among the buckets.
   */
  lemma SummaryContents(all: seq<ModelRecord>, ms: seq<ModelRecord>, text: string)
    requires forall i :: 0 <= i < |ms| ==> IsEligible(ms[i])
    requires AllRecognized(ms)
    ensures var s := Summarize(all, ms, text);
      && s.text == text
      && |s.allmodels| == |all| && (forall i :: 0 <= i < |all| ==> s.allmodels[i] == all[i].name)
      && |s.models| == |ms| && (forall i :: 0 <= i < |ms| ==> s.models[i] == ms[i].name)
      && multiset(s.additive) + multiset(s.multiplicative) == multiset(s.models)
      && multiset(s.f77) + multiset(s.cxx) + multiset(s.c) == multiset(Map(FuncNameOf, ms))
  {
    CategoryPartition(ms);
    StylePartition(ms);
    MapAt(NameOf, all);
    MapAt(NameOf, ms);
  }

  /**
   * A successful run: every selected language was recognised, the text is
   * the template after the three replacements (the bucket lists joined by
   * newlines, then one registration statement per selected record, in
   * order), and the summary is the one `SummaryContents` describes.
   */
  lemma GenerateSucceeds(all: seq<ModelRecord>, template: string)
    requires Generate(all, template).Success?
    ensures var s, ms := Generate(all, template).value, Selected(all);
      && |ms| > 0
      && AllRecognized(ms)
      && Splice(template, Join("\n", s.additive), Join("\n", s.multiplicative), Join("\n", Registrations(ms)))
         == Success(s.text)
      && s == Summarize(all, ms, s.text)
  {
  }
}
