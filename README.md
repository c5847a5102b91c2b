# welfare.id portal — a verified model of its page logic

welfare.id is a Next.js/React portal for Indonesian social-welfare subsidies.
Its pages hold a handful of small, exact rules, and this project models them
in Dafny and proves their properties:

- **subsidy application** (`SubsidyApplication`): the eligibility estimate from
  income, expenses, electricity bill, property tax and family size; the digit
  filter on currency fields; the form check and the guards of the submit
  handler; the flags a submission raises and the reset after it;
- **complaint** (`Complaint`): the attachment screen (at most 10 MiB, one of
  eight MIME types), the order-preserving append and the removal by id, the
  icon badge, the drag-over state and the blank-text check on submit;
- **application list** (`ApplicationList`): the search on name, NIK and id
  combined with the status filter, and the per-status counts;
- **dashboard** (`Dashboard`): the eighteen-province table, the click that
  toggles the selection, the lookup of the selected province and the sum of
  its subsidy totals;
- **subsidy editor** (`ManageSubsidy`): in-place edits of one packet or one
  funding source by index, and the setters of title, vendor, target and
  deadline;
- **province map** (`IndonesiaMap`): the case-insensitive match of a map path
  to a province, the fill colour, stroke width and shadow chosen by
  selection, hover and region, and the hover and click handlers.

Two shared modules model the JavaScript built-ins these rules lean on:
`JsStrings` (`trim`, ASCII `toLowerCase`, `startsWith`, `includes`, the digit
filter `replace(/[^0-9]/g, '')`) and `JsNumbers` (`parseInt` with no radix
and `Number` on a string, as ECMAScript defines them, with exact values).
`Options` holds the `Option` type.

Pure code is written as functions with lemmas about them. Page state that
handlers change is a class whose methods state the whole new state. The
page's `useState` hooks become fields. Each `set…` call becomes an
assignment. A timer callback becomes a method that the caller runs.

## Model

| member | source | states |
|---|---|---|
| JsStrings.TrimStartSpec | src/app/apply-subsidy/page.tsx:80 | `trimStart` removes a prefix made only of whitespace, and what is left does not start with whitespace |
| JsStrings.TrimEndSpec | src/app/apply-subsidy/page.tsx:80 | `trimEnd` removes a suffix made only of whitespace, and what is left does not end with whitespace |
| JsStrings.TrimEmptyIff | src/app/apply-subsidy/page.tsx:80 | Trim (`trim`): `s.trim()` is empty exactly when `s` is all whitespace |
| JsStrings.TrimStartSkips | src/app/apply-subsidy/page.tsx:69 | leading whitespace makes no difference to `trimStart` |
| JsStrings.TrimNonBlankEnds | src/app/apply-subsidy/page.tsx:80 | a string with a non-blank character at both ends is its own trim |
| JsStrings.LowerChar | src/app/review/page.tsx:120 | lower-casing leaves no upper-case ASCII letter and fixes every other character |
| JsStrings.ToLower | src/components/IndonesiaMap.tsx:38 | lower-casing keeps the length and lower-cases character by character |
| JsStrings.ToLowerIdempotent | src/components/IndonesiaMap.tsx:38 | lower-casing twice is lower-casing once |
| JsStrings.ContainsAt | src/app/review/page.tsx:120-122 | an occurrence at any offset makes `includes` true |
| JsStrings.ContainsWitness | src/app/review/page.tsx:120-122 | when `includes` is true there is an offset where the term occurs |
| JsStrings.ContainsEmpty | src/app/review/page.tsx:120 | every string includes the empty term |
| JsStrings.KeepDigits | src/app/apply-subsidy/page.tsx:55 | the filter's output is all digits and no longer than its input |
| JsStrings.KeepDigitsAppend | src/app/apply-subsidy/page.tsx:55 | filtering a concatenation is concatenating the filtered parts, so the digits keep their order |
| JsStrings.KeepDigitsFixed | src/app/apply-subsidy/page.tsx:55 | the filter leaves a string unchanged exactly when it is all digits |
| JsStrings.KeepDigitsIdempotent | src/app/apply-subsidy/page.tsx:55 | filtering twice is filtering once |
| JsNumbers.DigitValue | src/app/apply-subsidy/page.tsx:69 | a decimal digit has its usual value, and exactly the decimal digits have a value below 10 |
| JsNumbers.DigitPrefixSpec | src/app/apply-subsidy/page.tsx:69 | the digit run `parseInt` reads is a prefix, made of digits, and followed by a non-digit or the end |
| JsNumbers.DigitPrefixStops | src/app/apply-subsidy/page.tsx:69 | digits followed by a non-digit or the end are read as exactly those digits |
| JsNumbers.UnsignedParseStops | src/app/apply-subsidy/page.tsx:69 | after the sign, a digit run followed by a non-digit is read as its decimal value, unless it is `0x` |
| JsNumbers.ParseIntStopsAtNonDigit | src/app/apply-subsidy/page.tsx:69 | reading stops at the first non-digit, so "4 orang" is 4 and "1.5" is 1; a lone 0 before `x` is left out, as it starts a hexadecimal number |
| JsNumbers.ParseIntDigits | src/app/apply-subsidy/page.tsx:69 | ParseInt (`parseInt`): on a non-empty digit string it gives the string's decimal value |
| JsNumbers.ParseIntSkipsWhitespace | src/app/apply-subsidy/page.tsx:69 | leading whitespace is skipped |
| JsNumbers.ParseIntNegative | src/app/apply-subsidy/page.tsx:91 | a leading minus sign negates the digits after it, so "-3" fails the check of at least 1 |
| JsNumbers.ParseIntNaN | src/app/apply-subsidy/page.tsx:69 | text starting with anything but whitespace, a sign or a digit is NaN, and the page then falls back to 0 |
| JsNumbers.ParseIntEmpty | src/app/apply-subsidy/page.tsx:91 | `parseInt("")` is NaN |
| JsNumbers.Pow10 | src/app/manage-subsidy/page.tsx:37 | powers of ten are positive |
| JsNumbers.UnsignedDecimalDigits | src/app/manage-subsidy/page.tsx:37 | a whole digit string is a decimal literal with its own value |
| JsNumbers.UnsignedDecimalFraction | src/app/manage-subsidy/page.tsx:37 | digits, a point and digits form a literal whose value is the whole part plus the fraction |
| JsNumbers.ToNumberDigits | src/app/manage-subsidy/page.tsx:37 | ToNumber (`Number`): on a non-empty digit string it gives the string's decimal value |
| JsNumbers.ToNumberFraction | src/app/manage-subsidy/page.tsx:37 | `Number` reads a decimal fraction exactly: "2.5" is 2 + 5/10 |
| JsNumbers.ToNumberNegative | src/app/manage-subsidy/page.tsx:37 | a leading minus sign negates the number |
| JsNumbers.ToNumberTrailingText | src/app/manage-subsidy/page.tsx:37 | non-blank text after the digits that starts no fraction, no exponent and no `x`/`o`/`b` makes the whole input NaN, e.g. "12abc" |
| JsNumbers.ToNumberBlank | src/app/manage-subsidy/page.tsx:37 | `Number` of the empty or an all-blank string is 0 |
| JsNumbers.ToNumberLeadingBlanks | src/app/manage-subsidy/page.tsx:144 | leading whitespace makes no difference to `Number` |
| JsNumbers.ToNumberHex | src/app/manage-subsidy/page.tsx:144 | `0x` followed by hexadecimal digits is read in base 16 |
| JsNumbers.TrailingZerosValue | src/app/apply-subsidy/page.tsx:60-63 | a digit string followed by k zeros is worth its value times the k-th power of the radix |
| SubsidyApplication.FormData.With | src/app/apply-subsidy/page.tsx:44-46 | the named field gets the value and every other field keeps its text |
| SubsidyApplication.AmountIsNumber | src/app/apply-subsidy/page.tsx:60-63 | a digit-only field is read as its decimal value, the empty field counting as 0, and `parseInt` agrees on a filled field |
| SubsidyApplication.NetIncomeBounds | src/app/apply-subsidy/page.tsx:59-65 | NetIncome (`calculateNetIncome`): net income never exceeds income, and equals it when the three deduction fields are empty |
| SubsidyApplication.NetIncomeMayBeNegative | src/app/apply-subsidy/page.tsx:64 | net income is not clamped: income 1 with expenses 2 gives -1 |
| SubsidyApplication.PerPerson | src/app/apply-subsidy/page.tsx:70 | with no positive family size the per-person figure is the net income |
| SubsidyApplication.PerPersonTimesMembers | src/app/apply-subsidy/page.tsx:70 | with a positive family size, per-person income times the family size is the net income |
| SubsidyApplication.PerPersonFallback | src/app/apply-subsidy/page.tsx:69-70 | an empty, unreadable, zero or negative family size gives per-person income equal to net income |
| SubsidyApplication.GetEligibilityStatus | src/app/apply-subsidy/page.tsx:67-76 | the status is one of the four labels, and each label is given exactly for its band of per-person income: "Sangat Layak" at most 500,000, "Layak" above that up to 1,000,000, "Cukup Layak" above that up to 1,500,000, "Perlu Evaluasi" above 1,500,000 |
| SubsidyApplication.TierBands | src/app/apply-subsidy/page.tsx:72-75 | TierOf (the threshold chain of `getEligibilityStatus`): each tier is exactly one band: at most 500,000; above that up to 1,000,000; above that up to 1,500,000; above 1,500,000 |
| SubsidyApplication.TierBoundaries | src/app/apply-subsidy/page.tsx:72-75 | each threshold belongs to the more eligible tier, and one rupiah more moves to the next |
| SubsidyApplication.TierMonotone | src/app/apply-subsidy/page.tsx:72-75 | a lower per-person income never gives a less eligible tier |
| SubsidyApplication.StatusDistinguishesTiers | src/app/apply-subsidy/page.tsx:72-75 | different tiers have different labels |
| SubsidyApplication.QuotientAtMost | src/app/apply-subsidy/page.tsx:70-75 | for a positive family size, the quotient is at most a threshold exactly when the net income is at most threshold times family size |
| SubsidyApplication.TierOfSharesAgrees | src/app/apply-subsidy/page.tsx:70-75 | the tier decided by the division equals the tier decided by multiplying the thresholds |
| SubsidyApplication.EmptyFormEstimate | src/app/apply-subsidy/page.tsx:34-76 | the empty form estimates a net income of 0, "Sangat Layak" |
| SubsidyApplication.WorkedExample | src/app/apply-subsidy/page.tsx:59-70 | 2,500,000 income less 1,800,000, 350,000 and 150,000 for four people is 200,000 net and 50,000 each, "Sangat Layak" |
| SubsidyApplication.ExampleAmounts | src/app/apply-subsidy/page.tsx:60-63 | the example's amount fields read as 2,500,000, 1,800,000, 350,000 and 150,000 |
| SubsidyApplication.ValidateFormIff | src/app/apply-subsidy/page.tsx:78-81 | ValidateForm (`validateForm`): the form validates exactly when each of the five fields holds a non-whitespace character |
| SubsidyApplication.DigitFieldFilled | src/app/apply-subsidy/page.tsx:80 | a digit-only field passes the trim check exactly when it is non-empty |
| SubsidyApplication.FilledFormAccepted | src/app/apply-subsidy/page.tsx:83-96 | SubmitDecision (the guards of `handleSubmit`): five non-empty digit fields with a family size of at least 1 pass both submit guards |
| SubsidyApplication.AcceptedDividesByMembers | src/app/apply-subsidy/page.tsx:86-96 | an accepted form with a readable family size has at least one member, and its estimate divides by it |
| SubsidyApplication.SubsidyApplicationPage.constructor | src/app/apply-subsidy/page.tsx:34-42 | the form starts empty, with both flags down |
| SubsidyApplication.SubsidyApplicationPage.HandleInputChange | src/app/apply-subsidy/page.tsx:44-46 | only the named field changes, and the flags are untouched |
| SubsidyApplication.SubsidyApplicationPage.HandleCurrencyInput | src/app/apply-subsidy/page.tsx:54-57 | the named field gets the digits of the input, and currency fields stay digit-only |
| SubsidyApplication.SubsidyApplicationPage.HandleSubmit | src/app/apply-subsidy/page.tsx:83-96 | an incomplete form or a readable family size below 1 is refused and nothing changes; an accepted form raises `isSubmitting` |
| SubsidyApplication.SubsidyApplicationPage.FinishSubmission | src/app/apply-subsidy/page.tsx:99-101 | the first callback lowers `isSubmitting` and raises `isSubmitted` |
| SubsidyApplication.SubsidyApplicationPage.ResetAfterSubmission | src/app/apply-subsidy/page.tsx:104-112 | the second callback empties all five fields and lowers `isSubmitted` |
| SubsidyApplication.SubsidyApplicationPage.SubmitAndComplete | src/app/apply-subsidy/page.tsx:83-114 | after an accepted submission and both callbacks, the form is empty and both flags are down; a refused one changes nothing |
| Complaint.ScreenIff | src/app/complaint/page.tsx:50-66 | Screen (the checks in `handleFileUpload`): a file is accepted exactly when it is at most 10·1024·1024 bytes and its type is one of the eight allowed; size is checked first |
| Complaint.Accepted | src/app/complaint/page.tsx:47-79 | one upload adds at most as many attachments as files were offered |
| Complaint.AcceptedAppend | src/app/complaint/page.tsx:48-77 | the files are screened one by one: a rejected file is skipped and the files after it are still considered |
| Complaint.AcceptedExactly | src/app/complaint/page.tsx:47-79 | every added attachment comes from an accepted file, and every accepted file is added |
| Complaint.AllAcceptable | src/app/complaint/page.tsx:47-79 | when every file passes, all are added and no alert is raised |
| Complaint.CollectUploads | src/app/complaint/page.tsx:47-77 | the loop collects exactly the accepted files, in order, and one alert per rejected file |
| Complaint.RemoveFile | src/app/complaint/page.tsx:82-84 | no attachment with the removed id is left |
| Complaint.RemoveFileAppend | src/app/complaint/page.tsx:82-84 | removal works entry by entry, so the remaining attachments keep their order |
| Complaint.RemoveFileMembers | src/app/complaint/page.tsx:82-84 | an attachment stays exactly when its id differs from the removed one |
| Complaint.RemoveFileIdempotent | src/app/complaint/page.tsx:82-84 | removing the same id twice removes nothing more |
| Complaint.RemoveFileNoMatch | src/app/complaint/page.tsx:82-84 | a list without the id is unchanged |
| Complaint.ImagePrefixWins | src/app/complaint/page.tsx:95-97 | FileIcon (`getFileIcon`): any `image/` type gets the IMG badge, whatever else it contains |
| Complaint.IconsOfImageTypes | src/app/complaint/page.tsx:95-97 | the four allowed image types get IMG |
| Complaint.IconOfPdf | src/app/complaint/page.tsx:98-100 | `application/pdf` gets PDF |
| Complaint.IconOfMsWord | src/app/complaint/page.tsx:101-103 | `application/msword` gets DOC |
| Complaint.IconOfWordDocument | src/app/complaint/page.tsx:101-103 | the .docx type gets DOC |
| Complaint.PlainTextLacks | src/app/complaint/page.tsx:95-104 | a type that starts with neither `i` nor `a` and holds no `w` and no `d` gets the generic FILE badge |
| Complaint.IconOfPlainText | src/app/complaint/page.tsx:104 | `text/plain` gets the generic FILE badge |
| Complaint.DragNextCases | src/app/complaint/page.tsx:107-115 | DragNext (`handleDrag`): dragenter and dragover activate, dragleave deactivates, any other event leaves the state as it was |
| Complaint.CanSubmitIff | src/app/complaint/page.tsx:130-135 | CanSubmit (the check in `handleSubmit`): submission is allowed exactly when subject and content both hold a non-whitespace character |
| Complaint.ComplaintPage.constructor | src/app/complaint/page.tsx:31-38 | empty text, no attachments, all flags down |
| Complaint.ComplaintPage.HandleInputChange | src/app/complaint/page.tsx:40-42 | only the named text field changes |
| Complaint.ComplaintPage.HandleFileUpload | src/app/complaint/page.tsx:44-80 | a null list changes nothing; otherwise the accepted files are appended after the existing ones and nothing else changes |
| Complaint.ComplaintPage.HandleRemoveFile | src/app/complaint/page.tsx:82-84 | the attachment list loses exactly the entries with that id |
| Complaint.ComplaintPage.HandleDrag | src/app/complaint/page.tsx:107-115 | the drag flag follows the event type, nothing else changes |
| Complaint.ComplaintPage.HandleDrop | src/app/complaint/page.tsx:117-125 | a drop always deactivates the zone and uploads a non-empty file list |
| Complaint.ComplaintPage.HandleSubmit | src/app/complaint/page.tsx:127-135 | blank subject or content is refused with nothing changed; otherwise `isSubmitting` is raised |
| Complaint.ComplaintPage.FinishSubmission | src/app/complaint/page.tsx:138-140 | the first callback lowers `isSubmitting` and raises `isSubmitted` |
| Complaint.ComplaintPage.ResetAfterSubmission | src/app/complaint/page.tsx:143-147 | the second callback clears the text, the attachments and `isSubmitted` |
| ApplicationList.StatusName | src/app/review/page.tsx:24 | no status is named "all" |
| ApplicationList.StatusNameInjective | src/app/review/page.tsx:123 | two statuses compare equal by name exactly when they are the same |
| ApplicationList.Filtered | src/app/review/page.tsx:119-125 | every result is an application of the list that matches both the search and the status filter |
| ApplicationList.FilteredIsSubsequence | src/app/review/page.tsx:119-125 | the results are a subsequence of the list, in original order |
| ApplicationList.FilteredMembers | src/app/review/page.tsx:119-125 | an application is shown exactly when it is in the list and matches; `Matches` is `MatchesSearch` (`matchesSearch`) and `MatchesStatus` (`matchesStatus`) |
| ApplicationList.EmptySearchShowsAll | src/app/review/page.tsx:120-123 | the empty term with status "all" shows the whole list |
| ApplicationList.FilteredHaveStatus | src/app/review/page.tsx:123 | with a specific status, every result has that status |
| ApplicationList.StatusWithinAll | src/app/review/page.tsx:123-124 | the results for one status are a subsequence of the results for "all" with the same term |
| ApplicationList.CountStatus | src/app/review/page.tsx:127-129 | a count never exceeds the number of applications |
| ApplicationList.CountsSumToTotal | src/app/review/page.tsx:127-129 | the pending, approved and rejected counts add up to the number of applications |
| ApplicationList.CountIsEmptySearch | src/app/review/page.tsx:127-129 | each count equals the length of the list shown for that status with an empty search |
| ApplicationList.MockCounts | src/app/review/page.tsx:30-81 | the sample data counts 3 pending, 1 approved and 1 rejected |
| IndonesiaMap.FirstMatch | src/components/IndonesiaMap.tsx:37-39 | the position found is that of a province whose name equals the path's name up to case, and no earlier province matches |
| IndonesiaMap.FindByName | src/components/IndonesiaMap.tsx:37-39 | the result is the province at the first matching position; none exactly when no name matches |
| IndonesiaMap.RegionColorIsNotHighlight | src/components/IndonesiaMap.tsx:45-54 | no region colour, nor the fallback, is the selection or hover colour |
| IndonesiaMap.UnmatchedPathDefaults | src/components/IndonesiaMap.tsx:36-75 | a path naming no province is #6b7280, stroke "1", no shadow |
| IndonesiaMap.MatchIgnoresCase | src/components/IndonesiaMap.tsx:37-39 | names equal up to case find the same province |
| IndonesiaMap.StylesIgnoreCase | src/components/IndonesiaMap.tsx:36-75 | names equal up to case get the same colour, stroke width and shadow |
| IndonesiaMap.HighlightRanking | src/components/IndonesiaMap.tsx:36-65 | ProvinceColor and StrokeWidth (`getProvinceColor`, `getStrokeWidth`): selected gives #fbbf24 and stroke "3" even when hovered; hovered alone gives #f59e0b and "2"; otherwise the region colour and "1" |
| IndonesiaMap.StylesAgree | src/components/IndonesiaMap.tsx:36-75 | stroke "3", the selection colour and the shadow go together, and stroke "2" goes with the hover colour |
| IndonesiaMap.FilterIff | src/components/IndonesiaMap.tsx:67-75 | Filter (`getFilter`): the shadow is drawn exactly when the path names a province that is selected |
| IndonesiaMap.ClickTarget | src/components/IndonesiaMap.tsx:116 | a click reports an id exactly when the path names a province, and that id is the first matching province's |
| IndonesiaMap.MapView.constructor | src/components/IndonesiaMap.tsx:30 | nothing is hovered at first |
| IndonesiaMap.MapView.MouseEnter | src/components/IndonesiaMap.tsx:117-119 | entering a matched path hovers its province; an unmatched path leaves the hover as it was |
| IndonesiaMap.MapView.MouseLeave | src/components/IndonesiaMap.tsx:120 | leaving any path clears the hover |
| Dashboard.Toggle | src/app/dashboard/page.tsx:228-230 | clicking the selected province clears the selection; clicking any other selects it |
| Dashboard.ToggleTwice | src/app/dashboard/page.tsx:229 | two clicks on one province from no selection, or from that province, come back to the start |
| Dashboard.FindById | src/app/dashboard/page.tsx:236-238 | the result is the first province with that id; none exactly when no id matches |
| Dashboard.SelectedProvinceData | src/app/dashboard/page.tsx:236-238 | no selection, or id 0, shows nothing; otherwise the lookup by id |
| Dashboard.SumTotalsAppend | src/app/dashboard/page.tsx:240-242 | the sum of totals splits over concatenation |
| Dashboard.FourCategoryTotal | src/app/dashboard/page.tsx:240-242 | TotalSubsidies (`getTotalSubsidies`): for four categories the total is A + B + C + D |
| Dashboard.TotalBoundsEachCategory | src/app/dashboard/page.tsx:240-242 | with no negative total, the province total is at least every category's total |
| Dashboard.TotalsNonNegative | src/app/dashboard/page.tsx:240-242 | with no negative total, the province total is not negative |
| Dashboard.ProvincesDataShape | src/app/dashboard/page.tsx:14-213 | the table holds 18 provinces with ids 1 to 18 and four non-negative categories each |
| Dashboard.ProvincesDataRegionsColoured | src/app/dashboard/page.tsx:14-213 | every province lies in a region with its own map colour |
| Dashboard.SelectedFromTable | src/app/dashboard/page.tsx:236-238 | selecting id k + 1 shows the table's k-th province |
| Dashboard.JakartaTotal | src/app/dashboard/page.tsx:15-25 | DKI Jakarta's total is 327,500,000,000 |
| Dashboard.DashboardPage.constructor | src/app/dashboard/page.tsx:225 | nothing is selected at first |
| Dashboard.DashboardPage.HandleProvinceClick | src/app/dashboard/page.tsx:228-230 | the selection becomes the toggle of the old selection |
| Dashboard.DashboardPage.HandleMapClick | src/app/dashboard/page.tsx:300-304 | a click on a matched map path toggles that province; a click elsewhere changes nothing |
| ManageSubsidy.SetPacketField | src/app/manage-subsidy/page.tsx:37-38 | exactly the named field changes; "value" stores `Number` of the input, other keys store it as typed |
| ManageSubsidy.SetSourceField | src/app/manage-subsidy/page.tsx:45-46 | exactly the named field changes; "value" stores `Number` of the input |
| ManageSubsidy.UpdatedPackets | src/app/manage-subsidy/page.tsx:35-40 | the list keeps its length, the packet at the index gets the field edit, every other packet is unchanged |
| ManageSubsidy.UpdatedSources | src/app/manage-subsidy/page.tsx:43-48 | the list keeps its length, the source at the index gets the field edit, every other source is unchanged |
| ManageSubsidy.SetPacketFieldLastWins | src/app/manage-subsidy/page.tsx:35-40 | a later edit of a packet field overrides an earlier one |
| ManageSubsidy.SetPacketFieldCommutes | src/app/manage-subsidy/page.tsx:35-40 | edits of different packet fields do not interfere |
| ManageSubsidy.SetSourceFieldLastWins | src/app/manage-subsidy/page.tsx:43-48 | a later edit of a source field overrides an earlier one |
| ManageSubsidy.UpdatedPacketsIdempotent | src/app/manage-subsidy/page.tsx:35-40 | applying the same packet update twice is applying it once |
| ManageSubsidy.UpdatedSourcesIdempotent | src/app/manage-subsidy/page.tsx:43-48 | applying the same source update twice is applying it once |
| ManageSubsidy.UpdatedPacketsCommute | src/app/manage-subsidy/page.tsx:35-40 | updates of two different packets commute |
| ManageSubsidy.DigitsStoreTheirValue | src/app/manage-subsidy/page.tsx:37 | typing digits into a value field stores their decimal value |
| ManageSubsidy.ClearedValueIsZero | src/app/manage-subsidy/page.tsx:37 | clearing a value field, or leaving only blanks in it, stores 0 |
| ManageSubsidy.EditableSubsidy.constructor | src/app/manage-subsidy/page.tsx:8-22 | the initial record: title, packets A, B and C, vendor, sources APBN and CSR, target and deadline |
| ManageSubsidy.EditableSubsidy.UpdatePacket | src/app/manage-subsidy/page.tsx:35-40 | the packet list becomes its update at the index; title, vendor, sources, target and deadline are unchanged |
| ManageSubsidy.EditableSubsidy.UpdateSource | src/app/manage-subsidy/page.tsx:43-48 | the source list becomes its update at the index; packets and the other fields are unchanged |
| ManageSubsidy.EditableSubsidy.SetTitle | src/app/manage-subsidy/page.tsx:60 | only the title changes |
| ManageSubsidy.EditableSubsidy.SetVendorName | src/app/manage-subsidy/page.tsx:101 | only the vendor changes, to a vendor with the typed name |
| ManageSubsidy.EditableSubsidy.SetTarget | src/app/manage-subsidy/page.tsx:144 | only the target changes, to `Number` of the input |
| ManageSubsidy.EditableSubsidy.SetDeadline | src/app/manage-subsidy/page.tsx:154 | only the deadline changes |

## Left out

- Rendering, styling, icons as pictures, and the static pages (home, not-found, layout) are not modelled. They hold markup and wiring, not rules.
- The two login pages are not modelled. Their submit handlers only log to the console.
- The checklist and approve/reject screen that the review list links to (src/app/review/[application]/page.tsx) is not part of this model.
- The per-category subsidy page (src/app/subsidy/[category]/[province]/page.tsx) is not part of this model.
- The display formatters are not modelled: `formatCurrency`, `formatRupiah` and `formatFileSize`. They rely on `Intl.NumberFormat` and on floating-point `Math.log` and `toFixed`.
- Each timer callback is modelled as a separate method. The 2-, 3- and 4-second delays, and any interleaving with other events while a timer is pending, are not modelled.
- `alert` pop-ups are modelled as returned values (`Alert` records and the `SubmitOutcome`), not as I/O.
- `Math.random` attachment ids are not modelled; the caller passes one id per offered file.
- The d3 Mercator projection and GeoJSON path generation are not modelled, because they belong to a library. A map path is only its province name.
- `router.push` and the `encodeURIComponent` URL of `handleCategoryClick` (src/app/dashboard/page.tsx:232-234) are not modelled. They are navigation and a library call.
- JsStrings.ToLower: lower-cases ASCII letters only. JavaScript also folds other Unicode letters.
- JsNumbers.ToNumber: values are exact reals. The rounding of an IEEE double is not modelled, nor is the sign of -0. The same holds for `JsNumbers.ParseInt`.
- SubsidyApplication.AmountIsNumber: on currency fields the page calls `parseFloat`, and `parseFloat` is modelled only on the digit strings those fields can hold. There it coincides with the decimal value up to 2^53; beyond that doubles round, and past about 1.8e308 they overflow to Infinity; neither is modelled. `parseFloat` on other text is not modelled.
- SubsidyApplication.NetIncome / SubsidyApplication.PerPerson: both use exact integer and real arithmetic where the page subtracts and divides doubles, so rounding, Infinity and NaN in the net income and the per-person figure are not modelled.
- SubsidyApplication.SubsidyApplicationPage.HandleInputChange: requires a currency field to receive digits only. The page calls it only for the family-members field, and currency fields go through the digit filter.
- ManageSubsidy: keys other than id, name and value are not modelled. The page calls the update functions with "name" and "value" only, and an unknown key would add a new property to the object.
- ManageSubsidy.EditableSubsidy.UpdatePacket: the page copies the list shallowly and assigns the field on the shared packet object, so the old state's packet is mutated too. Packets are values here, so that aliasing is not visible. The same holds for UpdateSource.
- ManageSubsidy.EditableSubsidy.UpdatePacket: requires the index to be in range. The page would throw on a missing element; the inputs always pass an index of the rendered list. The same holds for UpdateSource.
- IndonesiaMap.RegionColor: a region named like an `Object.prototype` member (for example "toString") would pick up that member in JavaScript instead of the grey fallback. This is not modelled.
