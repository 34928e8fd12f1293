# SORMAS case-classification criteria, DTO header helpers and document names

A Dafny model of three pieces of SORMAS (Surveillance Outbreak Response Management & Analysis System):

- **The classification criteria tree** (`Criteria`, `Rendering`, `Decimal`). A case classification rule
  ("suspect", "probable", "confirmed") is a tree of criteria. Leaves test one fact about a case and are opaque
  here: their truth is a function `holds` and their text a function `leafText`. The inner nodes are
  "X of" combinators (`ClassificationXOfCriteriaDto`). Such a node is true when at least `requiredAmount` of its
  children are true. Its `eval` loop counts true children in order and returns as soon as the count reaches the
  amount. The plain class, the bulleted `ClassificationXOfSubCriteriaDto` and the compact
  `ClassificationOneOfCompactCriteriaDto` evaluate identically. They differ only in `buildDescription`, so they
  are one constructor `XOf` with a rendering `Mode`. The evaluation loop (`EvalXOf`) and the string-builder loops
  (`BuildDescription`) are methods proved against the specification functions `Eval` and `Describe`.
  Every leaf question goes through a log object (`Asked`), so the model observes which leaves are evaluated and in
  which order. `EvalXOf` states that log as `Trace`: the children up to the one that first brings the count to the
  amount, and none after it.
  The amount's word comes from a twelve-entry numeral table with `Integer.toString` as fallback. `Decimal` models
  that fallback, and its inverse `ParseInt` is proved to read it back.
- **DTO header helpers** (`DtoHelper`). `validateDto`, when `checkChangeDate` is set and the entity has a change
  date, rejects a DTO whose change date is missing or more than 1000 ms older than the entity's. `fillDto` copies uuid, creation date and change date from an entity onto a
  DTO. `fillOrBuildEntity` builds a new entity (or keeps an existing one) and then applies the same check.
  DTOs and entities are classes whose header fields the methods update in place.
- **Event document file names** (`EventDocument`): at most five characters of the event uuid, `_`, then the
  template's file name.

Two facts about the Java code of `ClassificationXOfCriteriaDto.java` that the model follows:

- The constructor (lines 44-47) and the setters (lines 114-124) do not check the amount. So the model accepts any
  amount. An amount of zero or less behaves as one, because the comparison comes after the increment. An amount
  above the child count, or an empty child list, is never true.
- Three compact children render as `A, B <b>OR</b> C`, with no comma before the OR separator (lines 176-181;
  `Rendering.CompactSmallCases`).

## Model

| member | source | states |
|---|---|---|
| `Criteria.EvalXOf` | sormas-api/src/main/java/de/symeda/sormas/api/caze/classification/ClassificationXOfCriteriaDto.java:50-62 | true iff the number of true children is at least max(requiredAmount, 1), i.e. `Eval`; the log grows by exactly the leaf questions of the first `evaluated` children, in order; `evaluated` is `Reach`: when true, the last child evaluated is true and the count first reaches the threshold there, so no later child is asked about; when false, every child was evaluated |
| `Criteria.EvalCriteria` | sormas-api/src/main/java/de/symeda/sormas/api/caze/classification/ClassificationXOfCriteriaDto.java:50-62 | evaluating any node (a leaf or a nested combinator, recursively) gives its meaning `Eval` and asks exactly the leaves of `Trace`, in order |
| `Criteria.Eval` | sormas-api/src/main/java/de/symeda/sormas/api/caze/classification/ClassificationXOfCriteriaDto.java:50-62 | a true combinator has at least max(requiredAmount, 1) children |
| `Criteria.ReachIsFirst` | sormas-api/src/main/java/de/symeda/sormas/api/caze/classification/ClassificationXOfCriteriaDto.java:52-58 | the number of children evaluated is the least prefix whose true count reaches the threshold, ending on a true child; all children when the threshold is never reached |
| `Criteria.OrStopsAtFirstTrue` | sormas-api/src/main/java/de/symeda/sormas/api/caze/classification/ClassificationXOfCriteriaDto.java:52-58 | "one of A, B" with A true asks only about A |
| `Criteria.TwoOfThreeTrace` | sormas-api/src/main/java/de/symeda/sormas/api/caze/classification/ClassificationXOfCriteriaDto.java:52-58 | "two of A, B, C" asks about A and B only when both hold, and about all three when A holds and B does not |
| `Criteria.XOfCriteria` | sormas-api/src/main/java/de/symeda/sormas/api/caze/classification/ClassificationXOfCriteriaDto.java:44-47 | the plain combinator keeps the amount and the children, in order |
| `Criteria.XOfSubCriteria` | sormas-api/src/main/java/de/symeda/sormas/api/caze/classification/ClassificationXOfCriteriaDto.java:138-140 | the bulleted combinator keeps the amount and the children, in order |
| `Criteria.OneOfCompactCriteria` | sormas-api/src/main/java/de/symeda/sormas/api/caze/classification/ClassificationXOfCriteriaDto.java:168-170 | the compact combinator has amount one and keeps the children, in order |
| `Criteria.IsCompact` | sormas-api/src/main/java/de/symeda/sormas/api/caze/classification/ClassificationXOfCriteriaDto.java:160 | only the compact one-of variant carries the compact marker |
| `Criteria.Threshold` | sormas-api/src/main/java/de/symeda/sormas/api/caze/classification/ClassificationXOfCriteriaDto.java:54-56 | the count a combinator must reach is at least one and at least requiredAmount, and equals requiredAmount when that is positive, one otherwise |
| `Criteria.SubCriteria` | sormas-api/src/main/java/de/symeda/sormas/api/caze/classification/ClassificationXOfCriteriaDto.java:74-77 | a combinator's sub-criteria are its children unchanged and in order; a leaf has none |
| `Criteria.AllRequiredIsAnd` | sormas-api/src/main/java/de/symeda/sormas/api/caze/classification/ClassificationXOfCriteriaDto.java:50-62 | with requiredAmount equal to a non-zero child count, the combinator is true iff every child is |
| `Criteria.OneRequiredIsOr` | sormas-api/src/main/java/de/symeda/sormas/api/caze/classification/ClassificationXOfCriteriaDto.java:50-62 | with requiredAmount at most one, the combinator is true iff some child is |
| `Criteria.UnreachableThresholdIsFalse` | sormas-api/src/main/java/de/symeda/sormas/api/caze/classification/ClassificationXOfCriteriaDto.java:50-62 | with more required than there are children, or no children, the combinator is false |
| `Criteria.VariantsEvaluateAlike` | sormas-api/src/main/java/de/symeda/sormas/api/caze/classification/ClassificationXOfCriteriaDto.java:126-170 | the bulleted and compact variants evaluate like the plain one; the compact constructor fixes the amount to one; only the compact variant carries the compact marker; all three return their children as sub-criteria |
| `Criteria.CompactIsOr` | sormas-api/src/main/java/de/symeda/sormas/api/caze/classification/ClassificationXOfCriteriaDto.java:168-170 | a compact one-of criterion is true iff some child is |
| `Criteria.TwoOfThreeScenario` | sormas-api/src/main/java/de/symeda/sormas/api/caze/classification/ClassificationXOfCriteriaDto.java:50-62 | "two of A, B, C" is true when A and C hold and B does not, and false when only A holds |
| `Criteria.NestedCompactScenario` | sormas-api/src/main/java/de/symeda/sormas/api/caze/classification/ClassificationXOfCriteriaDto.java:50-62 | a compact one-of nested in "two of" counts as a single child: the whole is A and (B or C) |
| `Rendering.BuildDescription` | sormas-api/src/main/java/de/symeda/sormas/api/caze/classification/ClassificationXOfCriteriaDto.java:64-188 | the string-builder loops of the three `buildDescription` variants produce exactly the description `Describe` |
| `Rendering.DefaultIgnoresChildren` | sormas-api/src/main/java/de/symeda/sormas/api/caze/classification/ClassificationXOfCriteriaDto.java:64-72 | the default description is `<b>` + amount word + ` ` + OF + `</b>`, whatever the children |
| `Rendering.ParseAmountNumber` | sormas-api/src/main/java/de/symeda/sormas/api/caze/classification/ClassificationXOfCriteriaDto.java:79-107 | amounts 1..12 map to their localized word; every other int, zero and negatives included, maps to its decimal text, which reads back as the amount |
| `Rendering.CriteriaName` | sormas-api/src/main/java/de/symeda/sormas/api/caze/classification/ClassificationXOfCriteriaDto.java:69-72 | the label is `<b>`, the amount word, one space, the OF word, `</b>`, each at its position |
| `Rendering.Describe` | sormas-api/src/main/java/de/symeda/sormas/api/caze/classification/ClassificationXOfCriteriaDto.java:64-188 | a leaf shows its own text; a plain combinator shows only its label; a bulleted one starts with `<b> ` + ONEOF + `</b>` and its length is at least that label's plus seven per child; a compact one without children is empty |
| `Rendering.DescriptionShape` | sormas-api/src/main/java/de/symeda/sormas/api/caze/classification/ClassificationXOfCriteriaDto.java:142-188 | the bulleted description's length is the label's plus the children's descriptions' plus seven (one `<br/>- `) per child; a compact one with one child is that child's description; with n >= 2 children its length is the descriptions' plus two per each of n-2 commas plus the OR separator's |
| `Rendering.AmountThirteen` | sormas-api/src/main/java/de/symeda/sormas/api/caze/classification/ClassificationXOfCriteriaDto.java:105-106 | the amount 13 is written "13" |
| `Rendering.BulletsAppend` | sormas-api/src/main/java/de/symeda/sormas/api/caze/classification/ClassificationXOfCriteriaDto.java:146-149 | the bullet lines of two child lists joined are the bullet lines of each, joined: every child adds its own line |
| `Rendering.BulletedLines` | sormas-api/src/main/java/de/symeda/sormas/api/caze/classification/ClassificationXOfCriteriaDto.java:142-152 | the bulleted description is `<b> ` + ONEOF + `</b>` followed by one `<br/>- ` line per child in order, the i-th holding the i-th child's description; the amount plays no part |
| `Rendering.CompactSmallCases` | sormas-api/src/main/java/de/symeda/sormas/api/caze/classification/ClassificationXOfCriteriaDto.java:172-188 | compact text: no children give "", one child its description, two `A <b>OR</b> B` with no comma, three `A, B <b>OR</b> C` |
| `Rendering.CompactLength` | sormas-api/src/main/java/de/symeda/sormas/api/caze/classification/ClassificationXOfCriteriaDto.java:175-185 | with n >= 2 children the compact text's length is the descriptions' total plus two for each of the n-2 ", " separators plus the OR separator's |
| `Rendering.NestedRenderingScenario` | sormas-api/src/main/java/de/symeda/sormas/api/caze/classification/ClassificationXOfCriteriaDto.java:160-188 | an outer "two of" renders only its label while the nested compact one-of renders `A <b>OR</b> B` |
| `Decimal.IntToString` | sormas-api/src/main/java/de/symeda/sormas/api/caze/classification/ClassificationXOfCriteriaDto.java:106 | `Integer.toString`: non-empty; a leading '-' exactly for negatives; digits only otherwise, and after the sign |
| `Decimal.NatRoundTrip` | sormas-api/src/main/java/de/symeda/sormas/api/caze/classification/ClassificationXOfCriteriaDto.java:106 | the digits of a natural number read back as that number |
| `Decimal.IntRoundTrip` | sormas-api/src/main/java/de/symeda/sormas/api/caze/classification/ClassificationXOfCriteriaDto.java:106 | `Integer.toString` of any int is an optional '-' and digits that read back as the int |
| `Decimal.NoLeadingZero` | sormas-api/src/main/java/de/symeda/sormas/api/caze/classification/ClassificationXOfCriteriaDto.java:106 | the decimal text has no leading zero except for 0 itself |
| `Decimal.IntToStringInjective` | sormas-api/src/main/java/de/symeda/sormas/api/caze/classification/ClassificationXOfCriteriaDto.java:106 | different amounts get different decimal texts |
| `DtoHelper.IsOutdated` | sormas-backend/src/main/java/de/symeda/sormas/backend/util/DtoHelper.java:48-50 | rejection needs checking on and an entity change date; then a missing DTO change date is rejected, and a present one exactly when it is more than 1000 ms older |
| `DtoHelper.ValidateDto` | sormas-backend/src/main/java/de/symeda/sormas/backend/util/DtoHelper.java:46-53 | passes iff the rejection rule does not apply; a rejection names the DTO's uuid |
| `DtoHelper.NoCheckNeverRejects` | sormas-backend/src/main/java/de/symeda/sormas/backend/util/DtoHelper.java:48 | with checkChangeDate off nothing is rejected |
| `DtoHelper.NoEntityDateNeverRejects` | sormas-backend/src/main/java/de/symeda/sormas/backend/util/DtoHelper.java:49 | an entity without a change date rejects nothing |
| `DtoHelper.MissingDtoDateRejected` | sormas-backend/src/main/java/de/symeda/sormas/backend/util/DtoHelper.java:50-51 | with checking on and an entity change date, a DTO without a change date is rejected |
| `DtoHelper.ToleranceBoundary` | sormas-backend/src/main/java/de/symeda/sormas/backend/util/DtoHelper.java:44-50 | with both dates, rejection iff dto + 1000 < entity; 1000 ms older passes, 1001 ms older is rejected |
| `DtoHelper.AcceptanceMonotone` | sormas-backend/src/main/java/de/symeda/sormas/backend/util/DtoHelper.java:50 | if a DTO change date is accepted, every later one is accepted |
| `DtoHelper.FillDto` | sormas-backend/src/main/java/de/symeda/sormas/backend/util/DtoHelper.java:55-59 | the DTO's creation date, change date and uuid become the entity's and no other field changes; the DTO then passes the check against that entity |
| `DtoHelper.FillOrBuildEntity` | sormas-backend/src/main/java/de/symeda/sormas/backend/util/DtoHelper.java:150-165 | without a target the new entity gets the source uuid (or the fresh one) and, if present, the source creation date; an existing target is returned untouched; either way the result is rejected iff the validateDto rule applies to the source and the resulting entity |
| `EventDocument.GenerateFilename` | sormas-ui/src/main/java/de/symeda/sormas/ui/docgeneration/EventDocumentLayout.java:30-33 | the name is the first min(5, \|uuid\|) uuid characters, `_` at that index, then the template; a uuid of at most 5 characters appears whole; the length is min(5, \|uuid\|) + 1 + \|template\| |
| `EventDocument.TemplateRecoverable` | sormas-ui/src/main/java/de/symeda/sormas/ui/docgeneration/EventDocumentLayout.java:32 | for one event, different templates give different names |

## Left out

- Leaf criteria (the `ClassificationCriteriaDto` subclasses that inspect case, person and sample data) are not part of this model: a leaf is an id whose truth and description are function parameters.
- The HTML renderer that consumes descriptions and the compact marker is not part of this model.
- `I18nProperties.getString` and Java's locale-dependent `toUpperCase`: the localized words arrive already upper-cased in `Rendering.Tokens`.
- The no-argument constructors, the getters and setters and `serialVersionUID`: they exist for serialization; criteria are immutable values here.
- `requiredAmount` is an unbounded int rather than a 32-bit Java int; the counter in `eval` cannot overflow in the Java code either, since it never exceeds the number of children.
- `DtoHelper.copyDtoValues`: it works through JavaBeans introspection, reflection, `newInstance`, `clone` and random uuids.
- DtoHelper dates are unbounded millisecond counts: the `long` overflow of `getTime() + 1000` is not modelled.
- Null arguments where the Java code would throw `NullPointerException` (a null DTO or entity in `validateDto`, a null event uuid in `generateFilename`) are not modelled; the DTO class argument of `OutdatedEntityException` is dropped.
- `DataHelper.createUuid()` and the new-entity supplier of `fillOrBuildEntity` are parameters (`freshUuid`, `newEntity`).
- The rest of `EventDocumentLayout` (facade calls, stream resources, notifications), `CaseController`, `FacilitiesGrid` and `EventParticipantDtoHelper` are UI, facade or database code and are not part of this model.
- `EventDocument.GenerateFilename` counts characters as Unicode scalar values, while Java's `substring` counts UTF-16 code units, so uuids with characters outside the Basic Multilingual Plane are cut differently; a null template file name, which Java concatenates as "null", is not modelled.
