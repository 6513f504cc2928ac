# esus-pec-mcp: filter composition and condition-code resolution, in Dafny

This project models the core of the esus-pec-mcp query tools. These tools answer a fixed catalogue of
read-only clinical questions over an e-SUS PEC database. The core does three things:

- **Filter builders** (`filters.py`). They turn optional patient criteria into SQL predicate fragments
  and an ordered list of bound parameters. The patient criteria are id, name prefix, sex, age range
  and health facility. They also handle clinical-code criteria: CID-10 and CIAP code lists with their
  AND/OR logic, and a free-text condition.
- **Condition-code resolver** (`obter_codigos_condicao_saude.py`). It normalises a free-text
  condition name, looks it up in a curated alias table, and otherwise searches the CID-10 and CIAP
  tables. It answers with a preset, database or fallback result.
- **Tools** (`sem_consulta.py`, `contar_pacientes.py`, `condicoes.py`, `paciente.py`,
  `analytics.py`, `atendimentos.py`). They validate their arguments and concatenate the builders'
  outputs, patient clauses first. They refuse an empty criteria set, clamp the page size, and put
  `LIMIT`/`OFFSET` values last.

## How SQL is represented

A SQL clause is a value of `Sql.Clause`. It names a fixed template and carries `Holes`, the number
of `%s` placeholders in its text. `AllOf` and `EitherOf` build the composite clauses.

- A statement is a `Query(clauses, params)`. Its clauses are listed in text order, including
  template slots such as `LIMIT`.
- `Aligned` means there are as many placeholders as parameters.
- `Bind` hands the parameters to the placeholders left to right, the way the database driver does.

The central invariant is that the builders emit aligned lists, and that concatenating aligned lists
keeps every value at its own placeholder (`Sql.BindFlatten`, `Sql.BindConcat`).

## Imperative and pure parts

Code that grows lists step by step is written as methods with loops, each proved equal to a
specification function. Those functions carry the lemmas. The methods are:

- `Filters.BuildPatientFilters`, `Filters.BuildConditionFilters` and `Filters.BuildCidGroup`;
- the alias-index and deduplication loops of the resolver;
- `Analytics.BuildEpiWhere` and `Analytics.BuildSemAtendimentoParams`;
- `SemConsulta.BuildSemConsultaSql`;
- `Atendimentos.BuildHistoryQuery`.

The tools' own logic is pure and is written as functions.

## External dependencies

The database is a function parameter (`db`) from a statement to the rows it returns, and the model
knows nothing about it. Dates arrive as already-formatted text.

## Model

| member | source | states |
|---|---|---|
| Guard.Clamp | src/pec_mcp/tools/paciente.py:62 | the limit sent is always in [1, cap]; an in-range limit is kept, a larger one becomes the cap and a smaller one becomes 1 |
| Guard.ClampStable | src/pec_mcp/tools/analytics.py:58 | clamping twice is clamping once, and the clamp never reverses the order of two limits |
| Guard.CountTotal | src/pec_mcp/tools/contar_pacientes.py:97-100 | a missing row or a null total counts 0; otherwise the count is the row's total |
| Sql.BindFlatten | src/pec_mcp/tools/filters.py:49-92 | fragments appended clause-with-its-parameters bind back to exactly each fragment's own parameters |
| Sql.BindIffAligned | src/pec_mcp/tools/filters.py:49-92 | the parameters bind to the placeholders exactly when the two counts agree |
| Sql.BindConcat | src/pec_mcp/tools/contar_pacientes.py:69-70 | concatenating clause lists and parameter lists in the same order keeps each side's bindings |
| Sql.BindJoin | src/pec_mcp/tools/condicoes.py:118-119 | two aligned pairs concatenated stay aligned, and each clause keeps its values |
| Sql.LimitedShape | src/pec_mcp/tools/paciente.py:80 | `LIMIT %s` comes after every filter clause, and the limit is the last parameter, bound to it |
| Filters.NormalizeSex | src/pec_mcp/tools/filters.py:12-30 | `None` gives `None`; any value found is one of MASCULINO, FEMININO, INDETERMINADO |
| Filters.NormalizeSexIdempotent | src/pec_mcp/tools/filters.py:12-30 | each of the three database values normalises to itself, so normalising twice is normalising once |
| Filters.NormalizeSexIgnoresCaseAndPadding | src/pec_mcp/tools/filters.py:22-30 | only the trimmed upper-cased spelling is looked up; a value is found exactly when that spelling is a key of the table |
| Filters.NormalizeSexLetters | src/pec_mcp/tools/filters.py:12-19 | M, F and I, in any case and with any padding, give MASCULINO, FEMININO and INDETERMINADO |
| Filters.NormalizeSexUnknown | src/pec_mcp/tools/filters.py:22-30 | an unknown spelling such as XYZ gives `None` |
| Filters.PatientFiltersErrors | src/pec_mcp/tools/filters.py:46-75 | the builder raises exactly for an inverted age range, an unknown truthy sex or a facility id <= 0, checked in that order |
| Filters.PatientFiltersShape | src/pec_mcp/tools/filters.py:54-92 | one clause per given criterion, in the order id, name, sex, minimum age, maximum age, facility; the lists are aligned and every clause binds exactly its own criterion's values |
| Filters.NamePrefixPattern | src/pec_mcp/tools/filters.py:57-59 | the name clause is emitted exactly for a non-empty prefix, and its parameter is the prefix followed by `%` |
| Filters.FacilityTwice | src/pec_mcp/tools/filters.py:72-92 | a facility id that passes is positive, emits the facility clause, and is bound to both of its placeholders |
| Filters.PatientFiltersNone | src/pec_mcp/tools/filters.py:49-50 | no criteria give two empty lists |
| Filters.BuildPatientFilters | src/pec_mcp/tools/filters.py:33-94 | the step-by-step appends produce the specified lists, or the specified error |
| Filters.CallPatientFilters | src/pec_mcp/tools/filters.py:33-41 | a call with declared keywords only behaves as the builder; a call with an undeclared keyword raises a keyword error naming it |
| Filters.NormalizeCodePrefix | src/pec_mcp/tools/filters.py:97-103 | a falsy code gives `None`; a trimmed upper-case code that holds `%` or `_` is kept as is, and any other gets exactly one `%` appended |
| Filters.NormalizedPatternShape | src/pec_mcp/tools/filters.py:97-103 | a normalised pattern is non-empty, trimmed and upper-case |
| Filters.NormalizeCodePrefixIdempotent | src/pec_mcp/tools/filters.py:97-103 | normalising a normalised pattern changes nothing |
| Filters.CodePatterns | src/pec_mcp/tools/filters.py:126-131 | the single code's pattern comes first, then the list's; there are no patterns exactly when no code is given |
| Filters.Combiner | src/pec_mcp/tools/filters.py:177-180 | the CID-10/CIAP combiner is always OR or AND |
| Filters.CidOrIsOneListParameter | src/pec_mcp/tools/filters.py:156-159 | under OR the CID-10 group is one clause whose single parameter is the whole pattern list |
| Filters.CidAndIsOneParameterPerPattern | src/pec_mcp/tools/filters.py:145-155 | under AND the group is one EXISTS per pattern joined into one clause, with one parameter per pattern, in order |
| Filters.CidFragment | src/pec_mcp/tools/filters.py:136-159 | the CID-10 group's placeholders match its parameters under either logic |
| Filters.ConditionFiltersErrors | src/pec_mcp/tools/filters.py:136-209 | the builder raises exactly for a bad CID-10 logic when patterns exist, for refused AND, or for text over 100 characters, in that order; an unknown combiner never raises |
| Filters.ConditionFiltersAligned | src/pec_mcp/tools/filters.py:106-221 | the condition lists are aligned and bind each emitted clause to its own parameters |
| Filters.ConditionGroupsOr | src/pec_mcp/tools/filters.py:187-191 | with both groups under OR there is one clause, and the CID-10 parameters come before the CIAP list |
| Filters.ConditionGroupsAnd | src/pec_mcp/tools/filters.py:192-197 | with both groups under AND there are two clauses, CID-10 first, each with its own parameters |
| Filters.ConditionTextLast | src/pec_mcp/tools/filters.py:205-219 | the text clause comes last, with four identical `%text%` parameters |
| Filters.ConditionFiltersNone | src/pec_mcp/tools/filters.py:106-221 | no codes and no text give two empty lists, whatever the logic settings |
| Filters.BuildCidGroup | src/pec_mcp/tools/filters.py:126-159 | the CID-10 step raises the logic errors in source order, or yields the specified group |
| Filters.CombineGroups | src/pec_mcp/tools/filters.py:187-203 | the combination step appends the specified clauses and parameters |
| Filters.BuildConditionFilters | src/pec_mcp/tools/filters.py:106-221 | the step-by-step appends produce the specified lists, or the specified error |
| Combined.PatientClausesEmpty | src/pec_mcp/tools/filters.py:54-92 | the patient builder emits no clause, and then no parameter, exactly when no patient criterion is given |
| Combined.ConditionClausesEmpty | src/pec_mcp/tools/filters.py:126-221 | the condition builder emits no clause, and then no parameter, exactly when no condition criterion is given |
| Combined.CombinedFiltersErrors | src/pec_mcp/tools/contar_pacientes.py:48-73 | patient errors come first, then condition errors, then the refusal of an empty clause list, which happens exactly when no criterion of either kind is given |
| Combined.CombinedFiltersAligned | src/pec_mcp/tools/contar_pacientes.py:69-70 | patient clauses come first, the combined lists are aligned, and they bind the patient values and then the condition values |
| Combined.NoArgumentsRefused | src/pec_mcp/tools/contar_pacientes.py:72-73 | a call with no criterion at all is refused |
| Combined.ListingKeywordsRefused | src/pec_mcp/tools/condicoes.py:95-105 | the first keyword the listing tools pass that the patient builder does not declare is `equipe_id` |
| ContarPacientes.CalledKeywordsAccepted | src/pec_mcp/tools/contar_pacientes.py:48-56 | every keyword the count tool passes is declared, so the call reaches the builder |
| ContarPacientes.CountQueryErrors | src/pec_mcp/tools/contar_pacientes.py:48-73 | the tool raises what the builders raise, never refuses CID-10 AND, and refuses exactly the calls without criteria |
| ContarPacientes.CountQueryShape | src/pec_mcp/tools/contar_pacientes.py:69-86 | at least one clause, patient clauses first, aligned; the condition tables are joined exactly when a condition criterion is given |
| ContarPacientes.PatientOnlyCount | src/pec_mcp/tools/contar_pacientes.py:77-86 | patient criteria alone never join the condition tables |
| ContarPacientes.ContarPacientesResult | src/pec_mcp/tools/contar_pacientes.py:97-100 | the count is the row's total, or 0 when the row or its total is missing |
| Condicoes.ListQueryErrors | src/pec_mcp/tools/condicoes.py:106-122 | the listing raises what the builders raise, refuses CID-10 AND with several codes, and refuses a call without criteria |
| Condicoes.ListQueryShape | src/pec_mcp/tools/condicoes.py:118-129 | patient clauses, then condition clauses, then `LIMIT`; the limit is clamped into [1, 200] and is the last parameter |
| Condicoes.ListCondicoesResults | src/pec_mcp/tools/condicoes.py:131-155 | one result per row, in row order; the identifiers, birth date, sex, codes, descriptions, dates, status and note are carried over from the row, and the name appears only as `_to_initials` of it, which is non-empty and upper-case |
| Condicoes.ListQueryAsWrittenRaises | src/pec_mcp/tools/condicoes.py:95-105 | as written every call raises the keyword error, including the call without criteria that was meant to be refused |
| Paciente.CaptureQueryErrors | src/pec_mcp/tools/paciente.py:63-75 | the corrected tool raises what the builder raises, and otherwise refuses exactly the calls without a criterion |
| Paciente.CaptureQueryShape | src/pec_mcp/tools/paciente.py:62-80 | patient clauses then `LIMIT`; the limit, clamped into [1, 200], is the last parameter and binds to `LIMIT` |
| Paciente.CapturarPacienteResults | src/pec_mcp/tools/paciente.py:82-95 | one result per row, in order; the name is the initials, never empty and upper-case; gender equals sex |
| Paciente.CaptureQueryAsWrittenRaises | src/pec_mcp/tools/paciente.py:63-73 | as written every call raises the keyword error; the corrected tool refuses no criteria and sex XYZ with the intended errors |
| Initials.ToInitialsShape | src/pec_mcp/tools/sem_consulta.py:33-43 | a falsy name, or one without a contributing word, gives N/A; otherwise there is one upper-case letter per non-particle word, in order |
| Initials.ToInitialsDisplayed | src/pec_mcp/tools/paciente.py:29-39 | the initials are never empty and read the same when upper-cased, N/A included |
| Initials.ContributingMembers | src/pec_mcp/tools/condicoes.py:54-64 | a word is kept exactly when it is non-empty and not de, da, do, das or dos in any case |
| Initials.ParticleOnly | src/pec_mcp/tools/sem_consulta.py:38-43 | a name that is only a particle, in any case and padding, gives N/A |
| Initials.BlankName | src/pec_mcp/tools/sem_consulta.py:38-43 | a whitespace-only name gives N/A |
| Initials.ParticleSkippedExample | src/pec_mcp/tools/sem_consulta.py:33-36 | the documented example on the full name: `_to_initials("Joao de Carvalho Lima")` is `JCL`, through the strip, the split, the particle filter and the first letters |
| Initials.ToInitialsIgnoresCase | src/pec_mcp/tools/sem_consulta.py:40-42 | upper-casing a name does not change its initials |
| Initials.SplitUpper | src/pec_mcp/tools/sem_consulta.py:40 | case mapping does not move whitespace, so the split gives the same words, upper-cased |
| SemConsulta.DefaultDiasKeys | src/pec_mcp/tools/sem_consulta.py:19-23 | the default-days table has exactly the three profiles as keys |
| SemConsulta.NormalizeTipo | src/pec_mcp/tools/sem_consulta.py:46-52 | an accepted profile is hipertensao, diabetes or gestante |
| SemConsulta.NormalizeTipoErrors | src/pec_mcp/tools/sem_consulta.py:46-52 | a falsy profile is refused as missing; any other is accepted exactly when its trimmed lower-case form is a profile, and refused as invalid otherwise |
| SemConsulta.NormalizeTipoIdempotent | src/pec_mcp/tools/sem_consulta.py:46-52 | normalising an accepted profile again gives it back |
| SemConsulta.NormalizeTipoIgnoresCase | src/pec_mcp/tools/sem_consulta.py:49 | letter case does not matter |
| SemConsulta.ResolveDias | src/pec_mcp/tools/sem_consulta.py:55-61 | the days returned are always positive |
| SemConsulta.ResolveDiasCases | src/pec_mcp/tools/sem_consulta.py:19-61 | an absent count gives 60 for gestante and 180 otherwise; a count <= 0 is refused and is the only error; a positive count is kept |
| SemConsulta.BaseSqlCases | src/pec_mcp/tools/sem_consulta.py:64-92 | gestante has no parameter; hipertensao and diabetes bind their own CID-10 and CIAP lists; any other profile raises |
| SemConsulta.UnitOnlyFilters | src/pec_mcp/tools/sem_consulta.py:117-127 | with only a facility the patient builder emits at most the facility clause, bound twice to the id |
| SemConsulta.SemConsultaSqlShape | src/pec_mcp/tools/sem_consulta.py:95-162 | the statement raises for a bad profile, then for a facility <= 0; otherwise the parameters are base, facility id, interval, facility id twice, and the interval clause comes first after the subqueries |
| SemConsulta.SemConsultaSqlBinds | src/pec_mcp/tools/sem_consulta.py:161 | the statement's lists are aligned, and each part binds its own values |
| SemConsulta.BuildSemConsultaSql | src/pec_mcp/tools/sem_consulta.py:105-161 | the step-by-step growth of the facility condition and WHERE list produces the specified statement |
| SemConsulta.SemConsultaSqlAsWrittenRaises | src/pec_mcp/tools/sem_consulta.py:117-127 | as written every call raises, and for valid input it raises the keyword error where the corrected statement succeeds |
| SemConsulta.CountSemConsultaResult | src/pec_mcp/tools/sem_consulta.py:178-193 | the count is the row's total, or 0 when the row or its total is missing |
| SemConsulta.PageShape | src/pec_mcp/tools/sem_consulta.py:237-239 | limit and offset come after all of the statement's parameters, and alignment is kept |
| SemConsulta.ListQueryShape | src/pec_mcp/tools/sem_consulta.py:211-239 | the limit is clamped into [1, 200] and a negative offset becomes 0; both are placed after every filter parameter; the listing fails exactly when the count does |
| SemConsulta.ListSemConsultaResults | src/pec_mcp/tools/sem_consulta.py:244-261 | one result per row, in order; id, dates, sex and day count are kept, and the name appears only as non-empty upper-case initials |
| Analytics.EpiWhereShape | src/pec_mcp/tools/analytics.py:61-73 | a filter clause is emitted exactly when its argument is not `None`, bound to that argument, and the lists are aligned |
| Analytics.EpiWhereOrder | src/pec_mcp/tools/analytics.py:61-73 | for every combination of given arguments, the clauses and their values are exactly those of the given ones, in the order sexo, idade_min, idade_max, localidade_id |
| Analytics.EpiWhereAllGiven | src/pec_mcp/tools/analytics.py:61-73 | with every argument given, all four clauses and values appear in table order |
| Analytics.EpiWhereNone | src/pec_mcp/tools/analytics.py:75-77 | no argument gives no WHERE clause |
| Analytics.BuildEpiWhere | src/pec_mcp/tools/analytics.py:68-73 | the loop over the filter table appends exactly the specified clauses and values |
| Analytics.EpidemiologyQueryShape | src/pec_mcp/tools/analytics.py:54-117 | any name but comorbidades_por_filtro is refused; otherwise the limit, clamped into [1, 500], follows the filter values and binds to `LIMIT` |
| Analytics.EpidemiologyUnfiltered | src/pec_mcp/tools/analytics.py:75-117 | without filters the only parameter is the clamped limit |
| Analytics.ConsultaPessoalCases | src/pec_mcp/tools/analytics.py:289-303 | exactly the five names are served, with 365, 30 (pregnant only) or 180 days (CID-10 pattern), or the HbA1c and blood-pressure queries; the limit is clamped into [1, 500] and is last |
| Analytics.ConsultaPessoalFilters | src/pec_mcp/tools/analytics.py:291-297 | only the hypertension query filters on a CID-10 pattern, and only the pregnancy query on pregnancy |
| Analytics.SemAtendimentoParams | src/pec_mcp/tools/analytics.py:177-180 | the parameters are the interval, then the pattern only when it is truthy, then the limit |
| Analytics.BuildSemAtendimentoParams | src/pec_mcp/tools/analytics.py:177-180 | the appends build exactly that list |
| Analytics.SemAtendimentoBinds | src/pec_mcp/tools/analytics.py:138-180 | the parameters match the placeholders: interval, pattern when given, limit; the pregnancy test binds nothing |
| Atendimentos.HistoryQueryErrors | src/pec_mcp/tools/atendimentos.py:78-83 | a missing id and an id <= 0 are refused, in that order; nothing else is refused |
| Atendimentos.HistoryQueryShape | src/pec_mcp/tools/atendimentos.py:85-94 | the id is the first parameter; without a limit it is the only one and there is no `LIMIT`; with one, the limit clamped into [1, 1000] follows and binds to `LIMIT` |
| Atendimentos.HistoryLimitClamp | src/pec_mcp/tools/atendimentos.py:87 | an in-range limit is sent unchanged, and all limits of 1000 or more ask for the same page |
| Atendimentos.BuildHistoryQuery | src/pec_mcp/tools/atendimentos.py:78-94 | the checks, clamp and conditional append produce the specified statement |
| ConditionCodes.Fold | src/pec_mcp/tools/obter_codigos_condicao_saude.py:156-157 | ASCII is kept, a combining mark is dropped, and nothing grows beyond three characters |
| ConditionCodes.Mask | src/pec_mcp/tools/obter_codigos_condicao_saude.py:159 | every character outside the kept class becomes a space, and the length is kept |
| ConditionCodes.ReplaceBackslashS | src/pec_mcp/tools/obter_codigos_condicao_saude.py:160 | a text without a backslash-s run is unchanged, and the result holds only characters of the text or of the replacement |
| ConditionCodes.ReplaceLeavesNoBackslashS | src/pec_mcp/tools/obter_codigos_condicao_saude.py:160 | after the replacement no backslash is followed by `s` |
| ConditionCodes.NormalizeText | src/pec_mcp/tools/obter_codigos_condicao_saude.py:153-161 | `None` gives the empty text; the result holds only a-z, 0-9, space and backslash, with no whitespace at either end |
| ConditionCodes.NormalizeTextIsNormalized | src/pec_mcp/tools/obter_codigos_condicao_saude.py:153-161 | the result contains only normal characters, no backslash-s run, and no whitespace at either end |
| ConditionCodes.NormalizeFixed | src/pec_mcp/tools/obter_codigos_condicao_saude.py:153-161 | normalised text is a fixed point of the normaliser |
| ConditionCodes.NormalizeTextIdempotent | src/pec_mcp/tools/obter_codigos_condicao_saude.py:153-161 | normalising twice is normalising once |
| ConditionCodes.AliasIndexEntries | src/pec_mcp/tools/obter_codigos_condicao_saude.py:164-171 | every entry of the index is a non-empty normalised alias of some key, and maps to that key |
| ConditionCodes.AliasIndexLookup | src/pec_mcp/tools/obter_codigos_condicao_saude.py:164-171 | an alias maps to its own key unless a later key has an alias with the same normal form |
| ConditionCodes.AddAliases | src/pec_mcp/tools/obter_codigos_condicao_saude.py:167-170 | the inner loop adds one key's aliases to the index, in any order |
| ConditionCodes.BuildAliasIndex | src/pec_mcp/tools/obter_codigos_condicao_saude.py:164-171 | the nested loops build exactly the specified index |
| ConditionCodes.PresetAliasForms | src/pec_mcp/tools/obter_codigos_condicao_saude.py:140-150 | every preset alias is already in normal form |
| ConditionCodes.PresetAliasesDisjoint | src/pec_mcp/tools/obter_codigos_condicao_saude.py:140-150 | no two preset keys share an alias |
| ConditionCodes.PresetAliasEntry | src/pec_mcp/tools/obter_codigos_condicao_saude.py:140-174 | every alias of every preset key is in the index and maps to its own key |
| ConditionCodes.PresetIndexExamples | src/pec_mcp/tools/obter_codigos_condicao_saude.py:140-150 | has maps to hipertensao and gravidez maps to gravidez |
| ConditionCodes.PresetKey | src/pec_mcp/tools/obter_codigos_condicao_saude.py:266-268 | a key found is a non-empty key of the preset condition table |
| ConditionCodes.CodeKey | src/pec_mcp/tools/obter_codigos_condicao_saude.py:181-184 | a key is non-empty, trimmed and upper-case; there is none exactly when the code strips to nothing |
| ConditionCodes.Deduped | src/pec_mcp/tools/obter_codigos_condicao_saude.py:177-188 | the output is no longer than the input; its codes are non-empty, trimmed and upper-case, with no duplicates |
| ConditionCodes.DedupedKeys | src/pec_mcp/tools/obter_codigos_condicao_saude.py:177-188 | a value is in the output exactly when it is the key of some input code |
| ConditionCodes.DedupedOrder | src/pec_mcp/tools/obter_codigos_condicao_saude.py:177-188 | the output is in first-occurrence order |
| ConditionCodes.DedupedPrefix | src/pec_mcp/tools/obter_codigos_condicao_saude.py:180-187 | deduplicating a prefix of the input gives a prefix of the output |
| ConditionCodes.DedupeCodes | src/pec_mcp/tools/obter_codigos_condicao_saude.py:177-188 | the loop with its seen set returns exactly the specified deduplication |
| ConditionCodes.AddCode | src/pec_mcp/tools/obter_codigos_condicao_saude.py:180-187 | one iteration appends the code's key unless it is missing or already seen, and keeps the seen set equal to the result |
| ConditionCodes.DedupedMatches | src/pec_mcp/tools/obter_codigos_condicao_saude.py:191-209 | the matches are never more than the rows |
| ConditionCodes.DedupedMatchesCodes | src/pec_mcp/tools/obter_codigos_condicao_saude.py:191-209 | the codes of the matches are exactly the deduplicated row codes |
| ConditionCodes.DedupedMatchesDescription | src/pec_mcp/tools/obter_codigos_condicao_saude.py:199-207 | each match carries the description of the first row with its code |
| ConditionCodes.DedupedMatchesKeys | src/pec_mcp/tools/obter_codigos_condicao_saude.py:194-201 | every row with a non-blank code has its key among the matches |
| ConditionCodes.DedupeMatches | src/pec_mcp/tools/obter_codigos_condicao_saude.py:191-209 | the loop with its seen set returns exactly the specified matches |
| ConditionCodes.AddMatch | src/pec_mcp/tools/obter_codigos_condicao_saude.py:194-208 | one iteration adds the row's match unless its code is missing or seen, and keeps the seen set in step |
| ConditionCodes.Tokens | src/pec_mcp/tools/obter_codigos_condicao_saude.py:213 | every token is a non-empty run of a-z and 0-9 |
| ConditionCodes.TokensOfRun | src/pec_mcp/tools/obter_codigos_condicao_saude.py:213 | a non-empty run of a-z and 0-9 is one token, kept whole |
| ConditionCodes.TokensSplit | src/pec_mcp/tools/obter_codigos_condicao_saude.py:213 | a character outside a-z and 0-9 separates tokens: the tokens of `a + c + b` are those of `a` followed by those of `b`; with TokensOfRun this makes the tokens the maximal runs `re.findall` returns |
| ConditionCodes.TokensConcat | src/pec_mcp/tools/obter_codigos_condicao_saude.py:213 | the tokens put back together are exactly the letters and digits of the text |
| ConditionCodes.TokenLike | src/pec_mcp/tools/obter_codigos_condicao_saude.py:212-216 | the pattern is non-empty and starts and ends with `%` |
| ConditionCodes.TokenLikeContent | src/pec_mcp/tools/obter_codigos_condicao_saude.py:212-216 | the pattern keeps every letter and digit in order and adds only `%`; it is `%` alone exactly when there is no letter or digit |
| ConditionCodes.CodeCandidate | src/pec_mcp/tools/obter_codigos_condicao_saude.py:220 | the candidate has no lower-case letter |
| ConditionCodes.CodeLikeShape | src/pec_mcp/tools/obter_codigos_condicao_saude.py:219-223 | a pattern is produced exactly when the candidate has the shape; it is the candidate plus one `%`, upper-case, starting with a capital letter |
| ConditionCodes.CidWithoutBackslash | src/pec_mcp/tools/obter_codigos_condicao_saude.py:37 | without a backslash, the CID-10 shape as written accepts only a letter and one or two digits, with an optional trailing newline |
| ConditionCodes.CodeLikeI10 | src/pec_mcp/tools/obter_codigos_condicao_saude.py:37-38 | I10 gives I10% for both tables |
| ConditionCodes.CodeLikeI10Dot9 | src/pec_mcp/tools/obter_codigos_condicao_saude.py:37 | I10.9 is refused by the CID-10 shape as written |
| ConditionCodes.CodeLikeI10BackslashDot9 | src/pec_mcp/tools/obter_codigos_condicao_saude.py:37 | I10 followed by a backslash and .9 is accepted |
| ConditionCodes.CodeLikeW03 | src/pec_mcp/tools/obter_codigos_condicao_saude.py:38 | W03 gives W03% for the CIAP table |
| ConditionCodes.WhereAndParamsShape | src/pec_mcp/tools/obter_codigos_condicao_saude.py:226-239 | the filter-column and name-column predicates come first, bound to the normalised and then the raw pattern; the code predicate is third exactly when a code pattern is given; there are as many clauses as parameters |
| ConditionCodes.TableSearchShape | src/pec_mcp/tools/obter_codigos_condicao_saude.py:283-309 | each table search binds its patterns and ends with `LIMIT`, bound to the limit clamped into [1, 200] |
| ConditionCodes.ValidatedErrors | src/pec_mcp/tools/obter_codigos_condicao_saude.py:256-264 | refused as missing exactly when blank, as too long exactly when over 100 characters after trimming, and as invalid exactly when nothing survives normalisation |
| ConditionCodes.ValidatedText | src/pec_mcp/tools/obter_codigos_condicao_saude.py:256-264 | accepted text is trimmed, 1 to 100 characters long, and has a non-empty normal form |
| ConditionCodes.ResolveErrors | src/pec_mcp/tools/obter_codigos_condicao_saude.py:256-264 | the tool refuses exactly what validation refuses, with the same error |
| ConditionCodes.ResolvePreset | src/pec_mcp/tools/obter_codigos_condicao_saude.py:266-281 | a preset hit returns the preset key with the deduplicated preset lists, no descriptions and no fallback text, whatever the limit and without asking the database |
| ConditionCodes.ResolveSearch | src/pec_mcp/tools/obter_codigos_condicao_saude.py:283-335 | a miss reports the trimmed text; the result is a fallback with all lists empty exactly when neither search matches, and otherwise comes from the database with the match codes in order |
| ConditionCodes.ResolveSearchOnly | src/pec_mcp/tools/obter_codigos_condicao_saude.py:307-312 | a miss depends on the database only through the rows of the two searches |
| ConditionCodes.ResolveGravidez | src/pec_mcp/tools/obter_codigos_condicao_saude.py:266-281 | gravidez is answered from the preset, and its codes include Z34.9 and W03 |

## Left out

- SQL text and semantics are not modelled: joins, CTEs, the age-band `CASE`, window functions, `ILIKE`. A clause is a template name plus its placeholder count.
- Database I/O is not modelled. Connections, `query_all` and `query_one` become a function parameter from statement to rows.
- Transport and registration are not modelled: the MCP server, configuration and `get_db_conn`.
- Date and number formatting is not modelled. `to_iso_date`, `to_iso_datetime` and `str(...)` coercions are replaced by text that arrives already formatted.
- Analytics.ConsultaPessoalCases: the rows of the epidemiological, HbA1c and blood-pressure queries are not mapped to result records; only the statements and their parameters are modelled.
- Atendimentos.HistoryQueryShape: the mapping of SOAP rows to results is not modelled. The history tool's only logic is its id checks, clamp and parameters.
- ConditionCodes.Fold: NFKD decomposition covers Latin-1 precomposed letters and the combining block U+0300 to U+036F only. Other characters are kept as they are, because Unicode's tables are not available.
- Text.Upper and Text.Lower map ASCII letters only. Python's full Unicode case mapping is not modelled.
- Python's regular expressions are not modelled as an engine. The two code shapes, `[^a-z0-9\\s]`, `\\s+` and `[a-z0-9]+` are written as hand-made character predicates that follow the patterns as written.
- Team and micro-area filtering is not modelled. The patient builder declares neither keyword, so no clause semantics exist for them; see Findings.
- The hypertension pattern `I10%%` of the personal query is passed as the parameter value exactly as written. SQL `LIKE` reads it as `I10` followed by two wildcards.
- The CTE alias in `_consulta_sem_atendimento` is not modelled. The `cid` join lives inside the `ult` subquery while the pattern test names `cid` in the outer query. That is a statement-text question outside the clause model.
- `src/pec_mcp/tools/gestantes.py` and `src/pec_mcp/tools/unidades.py` are not part of this model: they are fixed SQL with a clamp.
- `src/pec_mcp/models.py` is not part of this model beyond the result records mirrored here.

### Behaviour of the code as written

The model keeps each of these as the code has it.

- `build_patient_filters` declares no `equipe_id` or `micro_area`, although three tools pass them (see Findings).
- The pattern `\\s+` at line 160 of `obter_codigos_condicao_saude.py` matches a backslash followed by `s` characters, so whitespace runs are kept as they are.
- The CID-10 shape at line 37 of the same file requires a literal backslash and then any character before the decimals, so `I10.9` does not match.
- The search always matches on the description columns, and adds the code column when the text has a code shape.
- The pattern `%a%b%` built from the tokens matches them only in order.

## Findings

| source | as written | input that shows it | evidently intended | confidence | as-written member | corrected member |
|---|---|---|---|---|---|---|
| src/pec_mcp/tools/sem_consulta.py:117-127 | `build_patient_filters` is called with `equipe_id=` and `micro_area=`, which it does not declare, so Python raises `TypeError` | `contar_pacientes_sem_consulta(tipo="diabetes")`: the profile and days pass, then the call raises on `equipe_id` | the facility-only patient filter, with team and micro area either supported or not passed | not executed | SemConsulta.SemConsultaSqlAsWritten | SemConsulta.SemConsultaSql |
| src/pec_mcp/tools/condicoes.py:95-105 | the same call with `equipe_id=` and `micro_area=` raises `TypeError` before any criterion is checked | `listar_condicoes_pacientes(cid_code="I10")` raises on `equipe_id`, and so does the call without criteria, which should have been refused by the empty-criteria check | the patient filters built from the declared criteria, then the condition filters and the empty-criteria guard | not executed | Condicoes.ListQueryAsWritten | Condicoes.ListQuery |
| src/pec_mcp/tools/paciente.py:63-73 | the same call with `equipe_id=` and `micro_area=` raises `TypeError` before the empty-criteria guard | `capturar_paciente(sex="F")` raises on `equipe_id`; `capturar_paciente()` and `capturar_paciente(sex="XYZ")` raise `TypeError` rather than the intended `ValueError` | the patient filters built from the declared criteria, then the empty-criteria guard and the limit | not executed | Paciente.CaptureQueryAsWritten | Paciente.CaptureQuery |

For each row, the lemmas named `...AsWrittenRaises` prove the discrepancy:

- `SemConsulta.SemConsultaSqlAsWrittenRaises` shows that every valid call raises where the corrected statement succeeds.
- `Condicoes.ListQueryAsWrittenRaises` shows the same for the condition listing.
- `Paciente.CaptureQueryAsWrittenRaises` shows the same for the patient search.

The corrected members carry the `...Shape` and `...Errors` lemmas listed above. The rest of the model uses the corrected members.
