# CoDi payment API front end — a Dafny model of its rules

The CoDi API front end is a React single-page application. It lets a merchant:

- try the CoDi payment API: generate a QR charge, send a push charge, query a payment's status;
- enrol as a natural person (*persona física*) or a company (*persona moral*);
- look up bank institutions;
- copy code examples;
- read the documentation.

Rendering, networking and storage are done by libraries. This project models the deterministic rules the application itself owns, and proves what those rules guarantee:

- **Payment-form schemas** (module `Schemas`, `src/utils/validation.ts`). Each zod schema is modelled as the list of issues it reports. A form submits exactly when that list is empty. The decimal a number input yields is modelled exactly, so that "a multiple of 0.01" and "an integer" mean what they mean on paper.
- **Enrollment validators** (module `FieldRules`, with the string primitives in `Text`):
  - name and representative name, company name (*razón social*);
  - e-mail, ten-digit mobile number, dotted-quad IPv4, Mexican RFC tax id;
  - the optional URL fields.
- **Form state** (modules `Forms`, `PersonalInfo`, `CompanyInfo`): change, blur and submit handlers over a record of values, errors and touched fields.
- **Document upload** (module `DocumentUpload`): the size and type gate per slot, removing a file, and "submit only with all four documents".
- **Enrollment wizard** (module `Enrollment`): a three-step machine whose data survives going back. It also builds the submission.
- **API client rules** (module `Api`):
  - the error-message priority;
  - the default `x-api-key` header and the per-request headers;
  - the multipart body of an enrollment and what can be read back out of it.
- **Tools and pages**:
  - the API-key hook over browser storage (`ApiKey`);
  - the health indicator (`StatusIndicator`);
  - the transaction-status display (`PaymentStatus`);
  - the institution lookup (`Institutions`);
  - the nine code-example templates (`CodeTemplates`) and the generator that fills them (`CodeGenerator`);
  - the documentation page's navigation (`Docs`).

JavaScript built-ins are modelled exactly where a rule depends on them. `String.prototype.trim` and the regular-expression class `\s` use the ECMAScript white-space and line-terminator set. `includes`, `split('.')`/`join` and `toString` are modelled too. Browser storage is a map from names to strings. The WHATWG URL parser is a parameter.

## Model

| member | source | states |
|---|---|---|
| Schemas.ApiKeyIssues | src/utils/validation.ts:7-10 | the API key is accepted exactly when it has 128 characters; the empty key gets both messages (required and wrong length) |
| Schemas.ApiKeyAcceptsIff | src/utils/validation.ts:45-48 | the status-query schema's key rule is the same: accepted exactly at length 128, with no check on which characters |
| Schemas.MontoAsCents | src/utils/validation.ts:12-16 | an amount given as integer cents is accepted exactly when 0 < cents <= 99,999,999,999,999 |
| Schemas.AcceptedMontoIsCents | src/utils/validation.ts:12-16 | every accepted amount, however many decimals were typed, equals a whole number of cents in that range |
| Schemas.MontoValueOnly | src/utils/validation.ts:12-16 | the verdict on an amount depends only on its value, not on how many trailing zeros were typed |
| Schemas.QrAcceptsIff | src/utils/validation.ts:6-30 | the QR schema accepts exactly when: the key has 128 characters; the amount is a positive multiple of a cent up to the maximum; the concept is 1-40 printable ASCII characters; the numeric reference is 1-7 digits |
| Schemas.QrIgnoresVigencia | src/utils/validation.ts:28-29 | the validity field is any string and never changes the verdict |
| Schemas.PushAcceptsIff | src/utils/validation.ts:35-39 | the push schema accepts exactly when the QR schema accepts the shared fields and the customer's phone is exactly ten digits |
| Schemas.CountAsInteger | src/utils/validation.ts:55-64 | page size `tpg` is accepted exactly for integers 1..100, page number `npg` exactly for integers >= 1 |
| Schemas.CountValueOnly | src/utils/validation.ts:55-64 | the verdict on `tpg`/`npg` depends only on the number's value |
| Schemas.AcceptedCountIsInteger | src/utils/validation.ts:55-64 | an accepted `tpg`/`npg` is a whole number, at least 1 and, for `tpg`, at most 100 |
| Schemas.ConsultaAcceptsIff | src/utils/validation.ts:44-73 | the status-query schema accepts exactly when: the key has 128 characters; the folio has 10-20 characters; `tpg` and `npg` are integers in range; each date is "0" or eight digits |
| Schemas.DatesUnchecked | src/utils/validation.ts:66-72 | dates are a pattern only: "99999999" passes although no calendar has it, "00" fails |
| FieldRules.CheckName | src/components/enrollment/PersonalInfoForm.tsx:32-43 | the name check reports the first failure in order: blank, then fewer than 3 characters after trimming, then a character outside the letters, accented vowels, ñ and white space |
| FieldRules.ValidateNombre | src/components/enrollment/PersonalInfoForm.tsx:32-43 | the name is accepted exactly when the check finds nothing |
| FieldRules.ValidateRepresentante | src/components/enrollment/CompanyInfoForm.tsx:51-62 | the legal representative's name is accepted exactly when the same check finds nothing |
| FieldRules.NameValidatorsAgree | src/components/enrollment/CompanyInfoForm.tsx:51-62 | the two name validators accept the same values, give the same message for every non-blank value, and accept exactly a 3-character trimmed span matching the letters pattern |
| FieldRules.TrimLengthAtLeast | src/components/enrollment/PersonalInfoForm.tsx:36 | the trimmed length is at least k exactly when two non-space characters lie at least k - 1 apart |
| FieldRules.ValidateRazonSocial | src/components/enrollment/CompanyInfoForm.tsx:30-38 | the company name is accepted exactly when its trimmed length is at least 3, whatever the characters |
| FieldRules.EmailShapeIffPattern | src/components/enrollment/PersonalInfoForm.tsx:49 | the e-mail pattern holds exactly when the value is: a non-empty run without '@' or space; one '@'; then a domain with a '.' that is neither first nor last, without '@' or space |
| FieldRules.ValidateEmail | src/components/enrollment/PersonalInfoForm.tsx:45-53 | the e-mail is accepted exactly when the pattern matches |
| FieldRules.AcceptedEmailShape | src/components/enrollment/PersonalInfoForm.tsx:45-53 | an accepted e-mail has exactly one '@', a non-empty local part without space, and a domain whose '.' is neither its first nor its last character |
| FieldRules.ValidateCelular | src/components/enrollment/PersonalInfoForm.tsx:55-64 | the mobile number is accepted exactly when it is not blank and has exactly ten decimal digits once everything else is dropped |
| FieldRules.CountDigits | src/components/enrollment/PersonalInfoForm.tsx:59-60 | a single pass counts the digits `replace(/\D/g, '')` keeps |
| FieldRules.CelularIgnoresSeparators | src/components/enrollment/CompanyInfoForm.tsx:74-83 | a separator such as '-' between two parts changes nothing: accepted exactly when the parts hold ten digits together |
| FieldRules.OctetPatternIffValue | src/components/enrollment/PersonalInfoForm.tsx:100 | an octet alternative of the IP pattern matches exactly 1-3 digits whose value is at most 255 |
| FieldRules.IpShapeIffPattern | src/components/enrollment/PersonalInfoForm.tsx:100 | the IP pattern matches exactly four '.'-separated octets |
| FieldRules.ValidateFixedIp | src/components/enrollment/PersonalInfoForm.tsx:96-105 | the fixed IP is accepted exactly when it is blank or, untrimmed, matches the pattern |
| FieldRules.FixedIpRejectsLeadingSpace | src/components/enrollment/PersonalInfoForm.tsx:96-105 | because the pattern is tested on the untrimmed value, a leading space makes any non-blank value fail |
| FieldRules.ValidateUrl | src/components/enrollment/PersonalInfoForm.tsx:66-94 | an optional URL is accepted exactly when blank, or when it parses and its scheme starts with "http" |
| FieldRules.RfcCheckIffPattern | src/components/enrollment/CompanyInfoForm.tsx:44 | the RFC pattern matches exactly: 3-4 characters from A-Z, Ñ or &; then six digits; then three characters from A-Z or 0-9 |
| FieldRules.ValidateRfc | src/components/enrollment/CompanyInfoForm.tsx:40-49 | the RFC is accepted exactly when not blank and its upper-cased form matches; an accepted RFC upper-cases to 12 or 13 characters and has at most 13 itself |
| FieldRules.RfcCaseInsensitive | src/components/enrollment/CompanyInfoForm.tsx:45 | validating the upper-cased value gives the same result as validating the value |
| FieldRules.UpperKeepsBlank | src/components/enrollment/CompanyInfoForm.tsx:41-45 | upper-casing turns a blank value into a blank one and nothing else into one |
| FieldRules.CapitalsAcceptedIffShape | src/components/enrollment/CompanyInfoForm.tsx:44-45 | a value of capitals and digits is accepted exactly when it has the RFC shape |
| FieldRules.SharpSStandsForSS | src/components/enrollment/CompanyInfoForm.tsx:45 | a leading small `ß` gets the verdict of "SS" in its place |
| FieldRules.ElevenCharacterRfcAccepted | src/components/enrollment/CompanyInfoForm.tsx:44-45 | the eleven-character `ßA010101AAA` is accepted, since its upper case `SSA010101AAA` has twelve and the RFC shape |
| Text.Trim | src/components/enrollment/PersonalInfoForm.tsx:33 | trimming yields the text between the leading and trailing white space, empty exactly for a blank value, with no white space at either end and only white space after it |
| Text.UpperIdempotent | src/components/enrollment/CompanyInfoForm.tsx:182 | upper-casing twice is upper-casing once |
| Text.LowerIdempotent | src/components/tools/InstitutionLookup.tsx:32 | lower-casing twice is lower-casing once |
| Text.IncludesIffOccurs | src/components/tools/InstitutionLookup.tsx:35-36 | the left-to-right scan of `includes` finds the term exactly when it occurs somewhere |
| Text.NatToString | src/components/tools/InstitutionLookup.tsx:36 | a code's decimal text is non-empty digits without a leading zero and reads back as the code |
| Text.JoinSplit | src/components/enrollment/PersonalInfoForm.tsx:100 | splitting at '.' and joining again gives the value back |
| Text.SplitJoin | src/components/enrollment/PersonalInfoForm.tsx:100 | joining dot-free groups and splitting again gives the groups back |
| Forms.Mount | src/components/enrollment/PersonalInfoForm.tsx:28-30 | a form starts from its initial data, with no errors and nothing touched |
| Forms.HandleChange | src/components/enrollment/PersonalInfoForm.tsx:107-121 | a change always stores the value; it re-validates that field only if it was touched; every other field's value and error is unchanged |
| Forms.HandleBlur | src/components/enrollment/PersonalInfoForm.tsx:123-135 | a blur marks only that field touched and sets only that field's error, from its current value |
| Forms.HandleSubmit | src/components/enrollment/PersonalInfoForm.tsx:137-169 | submitting marks every field touched, records every field's error and hands over the values exactly when every error is empty |
| Forms.Clip | src/components/enrollment/PersonalInfoForm.tsx:241 | an input with a maximum length keeps a prefix of what was typed, no longer than the maximum, and all of it when it fits |
| PersonalInfo.Change | src/components/enrollment/PersonalInfoForm.tsx:107-121 | the personal form's change handler, with the field's own validator |
| PersonalInfo.Blur | src/components/enrollment/PersonalInfoForm.tsx:123-135 | the personal form's blur handler; the optional fields are validated as "" when unset |
| PersonalInfo.Submit | src/components/enrollment/PersonalInfoForm.tsx:137-169 | the six fields are touched, their errors recorded, and the data handed over exactly when all six are valid |
| PersonalInfo.SubmitAcceptsIff | src/components/enrollment/PersonalInfoForm.tsx:166-168 | the data is handed over exactly when the name, e-mail, phone, both URLs and the IP are acceptable |
| PersonalInfo.InputValue | src/components/enrollment/PersonalInfoForm.tsx:241 | the phone input keeps at most ten characters of what was typed |
| CompanyInfo.Change | src/components/enrollment/CompanyInfoForm.tsx:85-98 | the company form's change handler, with the field's own validator |
| CompanyInfo.InputValue | src/components/enrollment/CompanyInfoForm.tsx:181-186 | the RFC typed is clipped to 13 characters and stored upper-cased, at most three capitals for each; the phone keeps at most ten characters |
| CompanyInfo.RfcInputIsUpper | src/components/enrollment/CompanyInfoForm.tsx:181-183 | the stored RFC is always upper case, and its error is the verdict on the clipped text as typed |
| CompanyInfo.Blur | src/components/enrollment/CompanyInfoForm.tsx:100-113 | the company form's blur handler |
| CompanyInfo.Submit | src/components/enrollment/CompanyInfoForm.tsx:115-138 | the five fields are touched, their errors recorded, and the data handed over exactly when all five are valid |
| CompanyInfo.SubmitAcceptsIff | src/components/enrollment/CompanyInfoForm.tsx:135-137 | the data is handed over exactly when company name, RFC, representative, e-mail and phone are acceptable |
| CompanyInfo.SubmittedRfcLength | src/components/enrollment/CompanyInfoForm.tsx:44 | a submitted RFC has at most 13 characters and upper-cases to 12 or 13; one stored in capitals, as every typed one is, has 12 or 13 itself |
| DocumentUpload.SelectFile | src/components/enrollment/DocumentUploadForm.tsx:63-90 | choosing a file: over 5,242,880 bytes sets the size error and keeps the documents; a type outside PDF/JPEG/JPG/PNG sets the type error and keeps them; an admissible file fills the slot and clears its error; no file empties the slot and keeps its error; other slots never change |
| DocumentUpload.SelectStoresIff | src/components/enrollment/DocumentUploadForm.tsx:63-90 | a new file is stored exactly when it is admissible |
| DocumentUpload.SizeCheckedFirst | src/components/enrollment/DocumentUploadForm.tsx:66-84 | an oversized file gets the size message even when its type is also wrong |
| DocumentUpload.RemoveFile | src/components/enrollment/DocumentUploadForm.tsx:92-95 | removing empties that slot and clears only its error |
| DocumentUpload.Submit | src/components/enrollment/DocumentUploadForm.tsx:97-114 | the errors become exactly "required" on the empty slots, and the documents are handed over exactly when all four slots are filled |
| DocumentUpload.FillAllThenSubmit | src/components/enrollment/DocumentUploadForm.tsx:63-114 | choosing four admissible files and submitting hands over exactly those four |
| DocumentUpload.RemoveBlocksSubmit | src/components/enrollment/DocumentUploadForm.tsx:92-114 | after a removal, submitting hands nothing over and marks that slot required |
| Enrollment.SelectUserType | src/pages/Enrollment.tsx:49-52 | choosing the kind records it, moves to step 2 and keeps all other data |
| Enrollment.PersonalInfoSubmit | src/pages/Enrollment.tsx:54-64 | the personal data is merged, kind, documents and company fields are kept, and the step becomes 3 |
| Enrollment.CompanyInfoSubmit | src/pages/Enrollment.tsx:66-78 | the company data is merged, kind, documents and name are kept, and the step becomes 3 |
| Enrollment.Back | src/pages/Enrollment.tsx:121-125 | going back lowers the step by one above step 1, leaves step 1 alone, and never touches the data |
| Enrollment.DocumentSubmit | src/pages/Enrollment.tsx:80-97 | the submission carries the new documents and copies every other field from the data |
| Enrollment.StepTitle | src/pages/Enrollment.tsx:127-132 | the heading is non-empty exactly for steps 1 to 3 |
| Enrollment.StepDescription | src/pages/Enrollment.tsx:134-144 | the description is non-empty exactly for steps 1 to 3; at step 2 it speaks of personal data exactly for a natural person |
| Enrollment.DataStepForm | src/pages/Enrollment.tsx:193-223 | at step 2 the personal form shows exactly for a natural person and the company form exactly for a company |
| Enrollment.Apply | src/pages/Enrollment.tsx:35-125 | every handler keeps the step within 1..3 with a kind chosen from step 2 on; an event with no button on screen changes nothing |
| Enrollment.RunStaysValid | src/pages/Enrollment.tsx:35-125 | from the start, any sequence of events leaves a valid state that shows a form |
| Enrollment.BackRestoresPersonal | src/pages/Enrollment.tsx:193-205 | after submitting the personal form and going back, the form is given exactly the submitted data |
| Enrollment.BackRestoresCompany | src/pages/Enrollment.tsx:208-223 | after submitting the company form and going back, the form is given exactly the submitted data |
| Enrollment.DocumentsSurviveBack | src/pages/Enrollment.tsx:121-125 | going back from the documents shows a data form and keeps the documents last submitted (files picked but not submitted are dropped); submitting the data form again shows the document form with exactly those documents |
| Api.ErrorMessage | src/services/api.ts:94-122 | the message chosen is, in order: the generic text for a non-HTTP failure; the body's non-empty `message`; its non-empty `error`; its non-empty `errors` list described; the transport message |
| Api.ErrorMessageSource | src/services/api.ts:94-122 | every message chosen comes from one of those five sources |
| Api.DescribeIssuesAppend | src/services/api.ts:112 | describing a list is describing its parts joined with ", ", in list order |
| Api.DescribeIssuesStartsWithFirst | src/services/api.ts:112 | the description begins with the first entry as "field: message" |
| Api.SetApiKey | src/services/api.ts:72-78 | a non-empty key sets the `x-api-key` default header, an empty one removes it; no other header changes |
| Api.ClearApiKey | src/services/api.ts:83-85 | clearing removes the `x-api-key` header and nothing else |
| Api.SetThenClear | src/services/api.ts:72-85 | clearing after setting is clearing; setting the empty key is clearing |
| Api.SetTwice | src/services/api.ts:72-78 | the second key set wins |
| Api.RequestHeaders | src/services/api.ts:145 | a payment call sends `x-api-key` exactly when its key argument is non-empty, and no other header of its own |
| Api.EndpointPathsDistinct | src/services/api.ts:146-170 | the three payment calls post to distinct paths under /v2/codi/ |
| Api.EnrollmentPartOrder | src/services/api.ts:183-210 | the parts are named: userType, email, celular; then nombre (natural person) or razonSocial, rfc, representanteLegal (company); then the filled document slots in the order ine, constanciaFiscal, comprobanteDomicilio, caratulaBancaria |
| Api.FilePartNames | src/services/api.ts:199-210 | a document part is appended for a slot exactly when the slot is filled, in slot order |
| Api.EnrollmentPartsReadBack | src/services/api.ts:179-210 | reading the body back gives each text field sent ("" for a missing one), nombre absent for a company, the URLs and IP never present, and each slot's file exactly when the slot is filled |
| ApiKey.Mount | src/hooks/useApiKey.ts:10-18 | on mount the key is the stored one when a non-empty one is stored, "" otherwise |
| ApiKey.Save | src/hooks/useApiKey.ts:23-30 | saving sets the state; a non-empty key is stored under "codi_api_key", the empty key removes that entry; no other entry changes |
| ApiKey.Clear | src/hooks/useApiKey.ts:35-38 | clearing empties the state and removes only the hook's entry |
| ApiKey.SaveThenMount | src/hooks/useApiKey.ts:13-29 | a later mount reads back the key saved, and "" after clearing |
| ApiKey.SaveEmptyIsClear | src/hooks/useApiKey.ts:23-38 | saving the empty key is clearing |
| ApiKey.StateMatchesStorage | src/hooks/useApiKey.ts:10-38 | after every save or clear, a fresh mount sees the same key as the state |
| StatusIndicator.GetStatus | src/components/common/StatusIndicator.tsx:6-14 | loading shows "checking" whatever else holds; otherwise offline exactly on an error or an "unhealthy" status; operational in every other case |
| StatusIndicator.PulseIffOperational | src/components/common/StatusIndicator.tsx:6-14 | the dot pulses exactly in the operational case, which includes having no data yet |
| PaymentStatus.GetStatusInfo | src/components/common/PaymentStatusDisplay.tsx:8-17 | 0 is completed (green), -1 pending (yellow), -2 error and -3 rejected (red), every other code unknown (gray) |
| PaymentStatus.LabelRoundTrip | src/components/common/PaymentStatusDisplay.tsx:10-16 | the label gives back the code for the four known codes, and nothing for the rest |
| PaymentStatus.StatusColours | src/components/common/PaymentStatusDisplay.tsx:11-16 | red exactly for -2 and -3, green exactly for 0 |
| PaymentStatus.ListOf | src/components/common/PaymentStatusDisplay.tsx:57-130 | an absent or empty list shows "no transactions"; otherwise the heading counts the list, one badge per transaction in order, and the page note shows exactly when `ultPag` is given, reading "last page" exactly when it is true |
| Institutions.Keep | src/components/tools/InstitutionLookup.tsx:27 | filtering keeps only passing elements, loses none that pass, and adds nothing |
| Institutions.SearchIgnoresTermCase | src/components/tools/InstitutionLookup.tsx:32-36 | searching for the lower-cased term finds exactly what the term finds |
| Institutions.FilteredIsSelection | src/components/tools/InstitutionLookup.tsx:22-41 | the two-stage filter equals one filter by "of the chosen kind and, for a non-empty term, matching it" |
| Institutions.FilteredSoundComplete | src/components/tools/InstitutionLookup.tsx:22-41 | the result is an order-preserving subsequence of the list; every entry is of the chosen kind and matches the term; every such institution is present |
| Institutions.EmptyTermKeepsTypeFilter | src/components/tools/InstitutionLookup.tsx:31 | with no term the result is exactly the kind-filtered list, and all of it under "all" |
| Institutions.KindCountsAddUp | src/components/tools/InstitutionLookup.tsx:83-89 | the production and beta counts add up to the total |
| Institutions.Search | src/components/tools/InstitutionLookup.tsx:22-41 | a single pass over the list computes the same result |
| Institutions.ResultsNoun | src/components/tools/InstitutionLookup.tsx:97-98 | the count reads "institución" exactly for one result |
| CodeTemplates.UrlShape | src/utils/codeTemplates.ts:5 | every example URL is the server address, then "/v2/codi/", then the call's own path |
| CodeTemplates.UrlsDistinct | src/utils/codeTemplates.ts:9-39 | distinct calls' examples use distinct URLs |
| CodeTemplates.CelularOnlyInPush | src/utils/codeTemplates.ts:19-28 | the customer's phone is among an example's fields exactly for the push call |
| CodeTemplates.PushExtendsQr | src/utils/codeTemplates.ts:60-75 | the push example's fields are the QR example's with the phone appended |
| CodeTemplates.TemplateLayout | src/utils/codeTemplates.ts:9-148 | each example is a fixed head, the key, a fixed tail; the key sits right after the head and the URL right after the opening text |
| CodeTemplates.KeyRoundTrip | src/utils/codeTemplates.ts:9-148 | the key can be read back out of every example |
| CodeTemplates.TemplateInjective | src/utils/codeTemplates.ts:9-148 | for one language and call, distinct keys give distinct examples |
| CodeTemplates.FieldNamedInTemplate | src/utils/codeTemplates.ts:44-92 | every example names every field of its call's payload, whatever the key |
| CodeTemplates.PushTemplateNamesCelular | src/utils/codeTemplates.ts:114-130 | every push example mentions `celularCliente` |
| CodeGenerator.KeyChanged | src/components/tools/CodeGenerator.tsx:20-24 | a stored key of exactly 128 characters replaces the one shown; any other key, the empty one included, changes nothing |
| CodeGenerator.Step | src/components/tools/CodeGenerator.tsx:14-24 | every event keeps the shown key the placeholder or a 128-character key; picking a call or a language changes only that choice |
| CodeGenerator.DisplayAlwaysOk | src/components/tools/CodeGenerator.tsx:17-24 | from the placeholder, the shown key is always the placeholder or a 128-character key |
| CodeGenerator.DisplayIsLastAccepted | src/components/tools/CodeGenerator.tsx:17-24 | the shown key is the last stored key of 128 characters, or the initial one when there was none |
| CodeGenerator.GetCode | src/components/tools/CodeGenerator.tsx:26-34 | the code shown is the chosen language's template for the chosen call: the shown key reads back out of it and it posts to the call's URL |
| CodeGenerator.LanguageLabel | src/components/tools/CodeGenerator.tsx:36-43 | every language has a non-empty label |
| CodeGenerator.LanguageLabelsDistinct | src/components/tools/CodeGenerator.tsx:36-43 | no two languages share a label |
| CodeGenerator.Highlighter | src/components/tools/CodeGenerator.tsx:164 | the highlighter grammar is "bash" exactly for cURL and the language's own name otherwise |
| Docs.FindIndex | src/pages/Docs.tsx:248 | a section's position, or -1 exactly when the id is not a section |
| Docs.Previous | src/pages/Docs.tsx:246-252 | "Anterior" moves one position back above the first section and stays put at the first |
| Docs.Next | src/pages/Docs.tsx:265-271 | "Siguiente" moves one position on below the last section and stays put at the last |
| Docs.ButtonsShowWhereTheyMove | src/pages/Docs.tsx:245 | "Anterior" shows exactly when there is a previous section, "Siguiente" exactly when there is a next one |
| Docs.PreviousNextInverse | src/pages/Docs.tsx:245-271 | where the buttons show, each undoes the other |
| Docs.Step | src/pages/Docs.tsx:123 | the sidebar and both buttons only ever move to one of the three sections |
| Docs.ActiveAlwaysSection | src/pages/Docs.tsx:9 | from any section, the active id stays one of the three |
| Docs.RenderContent | src/pages/Docs.tsx:69-80 | each section shows its own page; any other id falls back to the first page |
| Docs.RenderContentDistinct | src/pages/Docs.tsx:69-80 | distinct sections show distinct pages |

## Left out

- Network I/O is not modelled: the axios instance, its interceptors and time-out, the HTTP calls, the react-query mutations and the health polling. The model keeps only the headers and bodies the calls are given.
- Browser side effects are not modelled: clipboard, `setTimeout` resets, navigation, scrolling and toasts.
- Rendering (JSX, styles, icons) and the static documentation and marketing content are not modelled. The model only records which screen or page is chosen.
- Floating point is not modelled. A number input's value is an exact decimal (`units / 10^scale`), so zod's `multipleOf(0.01)` and `int()` are exact here; on doubles their verdict depends on how the zod release in use computes the remainder. Infinity and overflow to it are not modelled. `parseFloat(...).toFixed(2)`, the locale date format and `formatFileSize` are left out.
- `.length` counts Unicode scalar values here, not UTF-16 code units. The two differ only for characters outside the Basic Multilingual Plane.
- Text.Upper: maps the ASCII and Latin-1 small letters (with `ß` to "SS", `µ` to Greek capital mu, `ÿ` to `Ÿ`), the dotless `ı`, the long `ſ` and the ligatures U+FB00–U+FB06. Every other character is kept, while JavaScript also upper-cases Greek, Cyrillic and other scripts. None of those has an upper case made of RFC characters `[A-ZÑ&0-9]`, so the RFC verdict is unaffected.
- Text.Lower: maps the ASCII and Latin-1 capitals, `İ` (to `i` and a combining dot), and the Kelvin and Ångström signs. Other scripts' capitals and the context-dependent final sigma are kept, so the institution search is case-sensitive for names written in them.
- FieldRules.ValidateRfc: does not promise that the value as typed has 12 or 13 characters, because the source does not. Only its upper case has, since `ß` and the ligatures expand; the value itself has at most 13. CompanyInfo.SubmittedRfcLength and CompanyInfo.InputValue state the same bounds.
- The WHATWG `new URL` parser is a foreign call. `FieldRules.ValidateUrl` takes it as a parameter (the scheme it returns, or nothing for a parse failure).
- The `maxLength` attribute is modelled as clipping what is typed to its first characters (`Forms.Clip`). How a browser treats pasted or composed text beyond that is not modelled.
- CodeTemplates.CelularOnlyInPush: states the "only push" half on the payload's field list, not as "the text never contains the word". The key is arbitrary text and could itself contain the word. The positive half is proved on the text itself (`CodeTemplates.PushTemplateNamesCelular`).
- The generator's "no API key" notice (src/components/tools/CodeGenerator.tsx:117) is not modelled. It is markup shown when the stored key is empty.
- The QR form's `institucion` field is not modelled. It belongs to no schema and is never sent.
- The health check's response type is reduced to its `status` field. The transaction record is reduced to its folio, concept and `edoMC` status code. Only the code feeds a rule.
- The three payment calls' bodies are passed through unchanged and are not modelled beyond their headers and paths.
- PaymentStatus.GetStatusInfo: takes the status code as an integer. A fractional code would also fall to "unknown" in the page's lookup, but the response type never carries one.
