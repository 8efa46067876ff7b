# Model of the xspec-models-cxc code generator

`helpers/template.py` generates the C++ source that binds the XSPEC model
library to Python. It works in four steps:

1. It reads the parsed `model.dat` records.
2. It keeps the additive (`Add`) and multiplicative (`Mul`) models, in file order.
3. For each kept model, a closure (`wrapmod`) builds one pybind11 `m.def(...)`
   registration statement. As a side effect it files the model's name into an
   additive or multiplicative list. It also files the model's function name into
   one of three lists by language: single-precision Fortran, C++ style or C style.
4. It replaces three markers in the template text, in order, and returns a
   summary of what it found:
   - `@@ADDMODELS@@` with the additive names;
   - `@@MULMODELS@@` with the multiplicative names;
   - `@@MODELS@@` with the registration statements.

   Each of these is joined by newlines.

The project models that core. It has five files:

- `Wrappers.dfy` holds `Option` and a `Result` that works with `:-`. The
  generator's fatal exits become `Failure` values.
- `Text.dfy` holds the string operations the generator relies on:
  - Python's `str.find`, with -1 for a missing term and 0 for an empty one;
  - `str.join`, with a splitting partner that reads it back;
  - the decimal rendering of a parameter count;
  - prefix, suffix and containment predicates.
- `Seqs.dfy` models list comprehensions as order-preserving `Filter` and `Map`.
  It proves membership, concatenation and partition lemmas about them.
- `Template.dfy` holds the generator itself:
  - the record, error and summary datatypes;
  - `ReplaceTerm` (`replace_term`);
  - the specification functions `Selected`, `Registration`, `Registrations`,
    `Validate`, `Splice` and `Generate`;
  - the class `Buckets`, whose method `WrapMod` updates the five lists in
    place as `wrapmod` does;
  - the method `Apply`, which runs the loop of the source and is proved to
    compute `Generate`.
- `TemplateProperties.dfy` proves what the generator promises about the
  selection, the buckets, the registration statements and the whole run.

The file-system steps are inputs here. The parsed records arrive as a
sequence, the template as a string, and the generated text comes back in the
summary in place of the output path.

## Model

| member | source | states |
|---|---|---|
| Text.Find | helpers/template.py:22 | `find` gives -1 exactly when the term does not occur; otherwise it gives the leftmost index where the term occurs |
| Text.NatToString | helpers/template.py:115-116 | the rendered parameter count is a non-empty string of decimal digits with no leading zero |
| Text.DecimalRoundTrip | helpers/template.py:115-116 | reading the rendered count back as decimal digits gives the count |
| Text.NatToStringInjective | helpers/template.py:115-116 | different parameter counts render as different texts |
| Text.Join | helpers/template.py:127-129 | `'\n'.join` gives the empty text for an empty list and otherwise starts with the first entry; `SplitJoin` reads it back |
| Text.SplitJoin | helpers/template.py:127-129 | splitting a newline-joined list of newline-free entries gives the list back |
| Seqs.FilterMembers | helpers/template.py:65 | a comprehension filter keeps exactly the elements that satisfy its condition |
| Seqs.FilterAppend | helpers/template.py:65 | a comprehension filter keeps the order of the elements it keeps |
| Template.ReplaceTerm | helpers/template.py:19-27 | it fails exactly when the term is absent, and the failure names the term; on success the result is the text with the term's leftmost occurrence replaced |
| Template.Selected | helpers/template.py:65 | a record is selected exactly when it is in the input and its model type is "Add" or "Mul" |
| TemplateProperties.RegistrationOutcome | helpers/template.py:101-121 | `Registration`, what `wrapmod` returns: the unknown-language error exactly when the language is none of the three, carrying the record's name, function name and language; otherwise the statement for its style (whose shape `RegistrationShape` states) |
| Template.Registrations | helpers/template.py:123 | `mstrs` has one statement per selected record; `RegistrationsAt` states what each one is |
| Template.RegistrationsAt | helpers/template.py:123 | the i-th statement of `mstrs` is what `wrapmod` returns for the i-th selected record |
| Template.FirstUnrecognized | helpers/template.py:112-123 | it finds the first record whose language is none of the three known ones, or reports that every language is known |
| Template.Splice | helpers/template.py:127-129 | the three replacements in order, each on the previous one's text. A marker missing from the text at its stage ends the run with that marker's error; when all three are found, the result is the last replacement's result. A failure is always one of the three markers |
| TemplateProperties.SpliceInPlace | helpers/template.py:127-129 | when each marker first occurs where expected in the text its stage sees, the output is the template with each joined list standing where its marker stood |
| Template.Validate | helpers/template.py:59-123 | the checks before the splice. Each error happens exactly in its case: no parsed records, or no additive or multiplicative record. It succeeds, with the selection, exactly when neither holds and every selected language is known. Otherwise it fails with the first selected record with an unknown language; it never fails with a missing marker |
| Template.Generate | helpers/template.py:55-142 | the run fails with "unable to parse" exactly when no records were parsed, and with "no models" exactly when no record is "Add" or "Mul"; an unknown-language failure happens exactly when some selected record has an unknown language, and it carries that record's name, function name and language; a missing marker is one of the three, and after validation a template without `@@ADDMODELS@@` fails on that marker |
| Template.Summarize | helpers/template.py:135-142 | the returned dictionary carries the generated text and one name per selected and per parsed record; `SummaryContents` states the contents in full |
| Template.Buckets.constructor | helpers/template.py:82-86 | the five lists start empty |
| Template.Buckets.WrapMod | helpers/template.py:88-121 | it returns the registration statement (or the unknown-language error). It appends the name to the additive or multiplicative list, and the function name to the list of its language, leaving the other lists unchanged |
| Template.BucketsGrow | helpers/template.py:88-111 | filing one more record extends each list by at most that record's entry, at the end |
| Template.RegistrationsGrow | helpers/template.py:123 | one more recognised record adds its statement at the end of `mstrs` |
| Template.GenerateStopsAt | helpers/template.py:112-123 | the first selected record with an unknown language ends the run with that record's error |
| Template.GenerateSplices | helpers/template.py:125-129 | once every language is known, only the splice can still fail |
| Template.Apply | helpers/template.py:55-142 | the step-by-step run (filter, `wrapmod` over the selection, the three replacements, the summary) computes exactly `Generate` |
| TemplateProperties.ReplaceTermSplices | helpers/template.py:19-27 | a replacement keeps the text before and after the term; the new length is the old length minus the term's length plus the replacement's; the text before the first occurrence holds no occurrence of a non-empty term |
| TemplateProperties.SelectedIsOrderedFilter | helpers/template.py:65 | the selection distributes over concatenation; it keeps exactly the "Add"/"Mul" records, and keeps every record when all are eligible |
| TemplateProperties.BucketsInOrder | helpers/template.py:82-111 | each of the five lists is filled in selection order: it distributes over concatenation |
| TemplateProperties.CategoryPartition | helpers/template.py:92-97 | the additive and multiplicative lists together hold every selected name exactly once |
| TemplateProperties.StylePartition | helpers/template.py:103-111 | when every language is known, the three language lists together hold every selected function name exactly once |
| TemplateProperties.SummaryContents | helpers/template.py:135-142 | the summary lists every parsed name and every selected name in order, and its lists partition the selection by category and by language |
| TemplateProperties.GenerateSucceeds | helpers/template.py:123-142 | a successful run had a non-empty selection with known languages; its text is the template after the three replacements, and its summary is the one above |
| TemplateProperties.RegistrationShape | helpers/template.py:101-120 | a statement starts with `    m.def("<name>", wrapper` and contains the language's wrapper fragment, `, <npars>>, `, the description and the argument bindings; it ends with `);` |
| TemplateProperties.InitStrOnlyForCStyles | helpers/template.py:117-119 | a statement ends with the `initStr` binding exactly when the language does not start with "Fortran", which among the known languages means exactly the C and C++ styles |

## Left out

- The check that `model.dat` exists (lines 55-57) and that the output directory exists (lines 70-72) are file-system steps; they are not modelled. So are reading the template, creating the directory and writing the output file (lines 125-133).
- The parser `parse_xspec_model_description` is not part of this model. Its result is the input sequence of records. A record keeps only the fields the generator reads; the parameters are kept only for their count.
- Paths are not modelled. The summary carries the generated text in place of the `outfile` path.
- The diagnostic written to standard error and the process exit are modelled as a `Failure` carrying the values the message reports, apart from the model-file path. The language `assert` in `wrapmod` (line 113) is modelled the same way, as the `UnrecognizedLanguage` error.
- Template.Buckets.WrapMod: the `assert` on the model type (line 99) cannot fire, because line 65 keeps only "Add" and "Mul". The model states it as a precondition instead of an error.
- Python run with `-O` drops both `assert`s; that mode is not modelled.
