# AXG in Dafny

AXG authorizes what agents do. A decision engine evaluates a request against a policy and signs a
Passport (ALLOW) or an approval ticket (CONFIRM, SUGGEST); an approval service exchanges approved
tickets for Passports; executors verify a Passport against the canonical hash of the payload and a
replay cache; a gateway carries tool calls between agent and executor; a hash-chained log records
what happened. This project models those parts and proves what they promise together.

`dafny verify dfyconfig.toml` verifies everything.

## How the parts fit

- **Canonical JSON.** `JsonValues` holds JSON trees as Python does (dict members in insertion order,
  integers of any size, floats as shortest decimals) and defines, without printing or sorting, when two
  trees are the same JSON (`Equiv`): equal up to member order and numeric value, an integer counting as
  the double it converts to. `Doubles` models that conversion, `Rounding` what it promises, `PyEquality`
  Python's exact `==`, and `IntegerPrecision` where the two part. `CanonicalNumber`, `CanonicalString` and `Canonical` model the
  printer of `axg/canonical.py` next to a strict RFC 8259 reader, `KeyOrder` the UTF-16 key sort,
  `NumberNotation` and `NumericValue` what numbers look like and mean.
- **Tokens.** Signing is symbolic: a token carries the key it was signed with. Hashing is an arbitrary
  function from texts to texts. No theorem takes it to be free of collisions: each says "the same JSON,
  or these two texts collide".
- **Deciding.** `Rules`, `SignedContext`, `Scoring` and `Engine` model `_evaluate` step by step;
  `EngineProperties` holds its laws, `PolicyProperties` what the parts of a policy mean for it.
- **Protocol.** `Approvals`, `Sdk`, `Replay` and `Gateway` are the other parties. `Protocol` puts them
  in one step system (decide, submit an approval, call, rotate keys, reload policies, advance the clock)
  with its invariant. `Provenance`, `SingleUse`, `FreshIds` and `ApprovalFlow` hold the theorems across
  components, `Scenarios` concrete runs.
- **Guards.** `Audit` with `AuditText`, `RateLimits`, `BodyLimits`, `Allowlist` and `Base64Url` stand alone.

What the source computes by expressions is a function here; what it does by updating fields, dicts or
local variables in loops is a method or a class, proved equal to a function of the old state, about
which the laws are stated.

## Assumptions

- A token presented anywhere in a run was issued by AXG or was not signed with an AXG key; rotation
  draws new keys. The clock never runs backwards, and each step reads it once.
- JSON objects have string keys; texts are sequences of Unicode scalar values.
- A fresh Passport or ticket id was never drawn before.

## Where code and promises differ

The model follows the code.

- *One ticket, one use* (`axg/approvals.py:6-7`, `docs/approvals.md:89`) holds only until the first
  Passport expires, when the cache forgets the id. Two approvals in different seconds give Passports that
  expire in different seconds, so this concerns every ticket, however short its life:
  `TicketUsedTwiceExactly` gives the condition, `SecondUseExactly` the time, and `ShortTicketPaysTwice` a
  run in which a ticket of sixty seconds pays for two calls.
- A ticket is *bound to the exact payload* (`axg/approvals.py:3-4`) up to the precision of a double, as
  `axg/canonical.py:6` says itself: `2**53` and `2**53 + 1` have one text and one hash, while `==` tells
  them apart (`sdks/axg-python-sdk/axg_python_sdk/__init__.py:243`). `EquivIsPyEqOnDoubles` gives the
  condition, `LargeIntegersShareText` this pair. So an accepted argument may differ from the decided
  payload: `UnchangedExactly` and `BoundExactly` give the condition, `LargeArgumentChanges` an instance.
- *Undeclared actions always need confirmation* (`docs/policies.md:68`): not when all triggered rules
  say ALLOW. `UndeclaredAllowedExactly` gives the condition, `AllowRuleLowers` an instance.
- `docs/concepts.md:51-57` lists the uncertainty gate as a stage of its own that answers CONFIRM. In the
  code it is one vote among rules and permissions, so a BLOCK prevails: `FinalDecisionExactly`,
  `BlockOutvotesGate`.
- `docs/concepts.md:76` forces a confirmation when the resolver fell back or the channel is uncertain. Each
  only adds to a score: fallback alone, or an uncertain channel with an intent, leaves the default gate
  silent. `GateExactly` gives the condition, `FallbackStaysSilent` an instance.
- `docs/policies.md:128` says that non-numbers never match an order operator. What `float()` accepts does:
  `OperatorsExactly`, and `NonNumbersCompare` for `true` and `"500"`.
- `docs/concepts.md:69` takes the default penalty where a rule gives none; a `confidence_penalty` of 0 counts
  as none: `SumsExactly`.
- A gate threshold off the 0.0001 grid can be lost to rounding: `GateExactly`, `GateSilentOffGrid`.
- Rule order can change a decision, through a payload that has no canonical text in one order only:
  `RuleOrderMatters`, `OrderChangesDecision`.
- *Every argument identical in the authorized payload* (`integrations/agentcore/README.md:76`) is Python
  `==`, for which `True == 1`. `AuthorizedArgumentExactly` gives the condition,
  `BooleanPassesAsNumber` an instance.
- `Retry-After` rounds down, so waiting that long may end in the same window: `RetryAfterExactly`,
  `RetryFallsShort`.
- `verify_audit_chain` raises, instead of naming a line, on a line that is no object and on a linked
  entry that cannot be hashed: `VerifyAuditChain`, `RaisingLines`.
- The audit file's lines are read back as written only when no record holds U+0085, U+2028 or U+2029
  (`axg/audit.py:63`, `axg/audit.py:74`): `RecordsFramedExactly`.
- A call refused for its arguments has used its Passport up: `MismatchSpends` gives the time,
  `WrongCallSpendsPassport` a run.
- `_evaluate` raises on a list or object as `proposed_action`, and when a rule compares an integer too
  large for a float: `DecisionExactly`, `ListActionRaises`.
- The flag `passport_signing_failed` suppresses the ticket whoever raises it: a rule that lists it, a rule
  without flags that is called so, or the gate. `SigningFailedExactly` and `PassportExactly` give the
  condition, `FlagSuppressesTicket` an instance.

## Model

| member | source | states |
|---|---|---|
| Canonical.SameTextIffSameJson | axg/canonical.py:51-71 | Two JSON trees print the same text exactly when they are equal up to member order and numeric value, integers taken as the doubles they convert to. |
| Canonical.RoundTrip | axg/canonical.py:51-71 | A strict JSON reader given a canonical text, with anything that may follow it, returns the tree with members sorted and numbers in normal form, and leaves what follows. |
| Canonical.CanonOfEquiv | axg/canonical.py:65-71 | Being the same JSON is having the same sorted, normalized tree, in both directions. |
| Canonical.InsertionOrderIrrelevant | axg/canonical.py:65-68 | Dicts with the same items print one text, whatever order they were filled in. |
| CanonicalNumber.NumberRoundTrip | axg/canonical.py:20-44 | Whichever of the four layouts is chosen, the text reads back as exactly sign, digits and exponent. |
| CanonicalNumber.NumberTextInjective | axg/canonical.py:20-44 | Numbers of different value have different texts. |
| CanonicalNumber.IntBranchAgrees | axg/canonical.py:61-64 | For every integer up to 2^53 - 1 in magnitude, `str` and the float layout of the same value agree. |
| Doubles.FirstInexact | axg/canonical.py:61-62 | 2^53 is a double; 2^53 + 1 is none and converts to 2^53. |
| Rounding.ConvertsExactly | axg/canonical.py:62 | `float(n)` overflows exactly from 2^1024 - 2^970 on: 2^53 * 2^971 less half of 2^971. |
| Rounding.OverflowsExactly | axg/canonical.py:62 | For every k, the double of an integer stays below 2^(53 + k) exactly when the integer is below 2^(53 + k) - 2^(k - 1). |
| Rounding.NearestIsNearest | axg/canonical.py:62 | No double is nearer to an integer than the one it converts to. |
| Rounding.NearestIdempotent | axg/canonical.py:62 | What an integer converts to is a double. |
| Rounding.NearestMonotone | axg/canonical.py:62 | Conversion keeps the order of integers. |
| Rounding.ShortestIsShortest | axg/canonical.py:28-29 | No decimal that converts to a double has fewer digits than the ones written for it. |
| Rounding.ShortestIsNearest | axg/canonical.py:28-29 | Of the decimals of that exponent that convert to the double, the one written is the nearest, or the even one of two; none of a larger exponent converts to it. |
| IntegerPrecision.ConvertedInjective | axg/canonical.py:61-62 | Different integers that are doubles convert to different values: their shortest digits read back. |
| IntegerPrecision.IntegersEqualDoubles | axg/rules.py:42-45 | An integer equals a float to Python exactly when it is a double and the float is the one it converts to. |
| IntegerPrecision.EquivIsPyEqOnDoubles | sdks/axg-python-sdk/axg_python_sdk/__init__.py:240-246 | Values that are the same JSON are equal to Python exactly when an integer that is no double stands only against itself, at every depth. |
| IntegerPrecision.PyEqExactly | sdks/axg-python-sdk/axg_python_sdk/__init__.py:240-246 | Python calls two values equal exactly when they are equal as doubles and an integer that is no double stands only against itself. |
| IntegerPrecision.EquivThenPyEq | sdks/axg-python-sdk/axg_python_sdk/__init__.py:240-246 | What is the same JSON as a value Python calls equal to a third equals the third, integers read as doubles. |
| IntegerPrecision.LargeIntegersShareText | axg/canonical.py:61-62 | An instance: 2^53 and 2^53 + 1 share a text and are different to Python. |
| NumberNotation.NotationExactly | axg/canonical.py:34-43 | An exponent is written exactly outside 10^-6 up to 10^21 (RFC 8785 section 3.2.2.3), and a point exactly when digits follow it. |
| NumberNotation.ShapeExactly | axg/canonical.py:36-44 | No fraction ends in a zero; an exponent carries its sign and no leading zero. |
| NumericValue.OrderIsRealOrder | axg/rules.py:71-75 | Numeric equality and order of decimals are equality and order of the real numbers they denote. |
| CanonicalString.StringRoundTrip | axg/canonical.py:47-48 | Every string reads back from its literal, whatever follows. |
| CanonicalString.WrittenRawExactly | axg/canonical.py:47-48 | A string is written as it is exactly when it has no control character, quote or backslash; no control character is ever written (RFC 8785 section 3.2.2.2). |
| CanonicalString.LiteralExactly | axg/canonical.py:47-48 | The exact literal of every one-character string: seven two-character forms, `\u00` and two lower-case hex digits for the other control characters, itself for the rest (RFC 8785 section 3.2.2.2). |
| CanonicalString.QuoteOfConcat | axg/canonical.py:47-48 | The literal of a concatenation holds the characters of the one literal before those of the other, so the one-character literals decide every literal. |
| CanonicalString.QuoteIsShortest | axg/canonical.py:47-48 | No literal a reader takes for the same string is shorter. |
| KeyOrder.ByteOrderIsUnitOrder | axg/canonical.py:66-67 | Comparing UTF-16BE bytes is comparing 16-bit code units, the order of RFC 8785 section 3.2.3. |
| KeyOrder.UnitsInjective | axg/canonical.py:67 | Different keys have different code units, so the order decides between any two keys. |
| KeyOrder.CharUnitsExactly | axg/canonical.py:67 | A character is one code unit below U+10000, else a surrogate pair that gives it back. |
| KeyOrder.SortMembersSorts | axg/canonical.py:67 | The members are printed in ascending key order. |
| JsonValues.SameNumberIsSameNormalForm | axg/canonical.py:29 | Two decimals have equal value exactly when they normalize to the same digits and exponent. |
| Tokens.SameHashSamePayload | axg/canonical.py:74-76 | Payloads with one hash are the same JSON, or their two texts are a collision of the hash. |
| Tokens.IntrospectExactly | axg/crypto.py:301-326 | A token is active exactly when it is no ticket, a current or retired key signed it, it is in force, and it says ALLOW for the asked action and payload; otherwise the first failing check says why. |
| Rules.FieldValue | axg/rules.py:62-69 | Walking a dotted path finds what nested dict lookups find, and is missing as soon as one of them is. |
| Rules.LookupExactly | axg/rules.py:62-69 | A path finds exactly the value a chain of dicts leads to, key by key. |
| Strings.JoinOfSplit | axg/rules.py:64 | The parts of a path hold no separator and, joined, are the path. |
| Strings.SplitOfJoin | axg/rules.py:64 | No other parts do. |
| Rules.HoldsExactly | axg/rules.py:31-82 | For every operator: a condition holds exactly when its field is found and the value stands to the expected one as asked: equal, among a list, at some offset of a lower-cased text, or above or below it on the extended reals. |
| Rules.Complements | axg/rules.py:40-57 | On a found field `eq` and `neq`, `in` and `not_in` on a list, `gt` and `lte`, `lt` and `gte` on numbers deny each other; on anything else none of the last six holds. |
| Rules.ConversionExactly | axg/rules.py:71-75 | What `float()` makes of each kind of value, and which integers make it raise. |
| Rules.TriggeredExactly | axg/rules.py:14-29 | A rule triggers exactly when every `all` condition is met and, if there are any, some `any` condition is; triggered rules keep their place among the others. |
| Rules.RaisesExactly | axg/rules.py:17-29 | Evaluating rules raises exactly when in some rule an order comparison meets an integer too large for a float, every `all` condition before it being met, or no `any` condition before it. |
| Rules.OperatorsExactly | axg/rules.py:46-53 | The four order operators compare the real values the operands convert to, with infinities on either side as the extremes; NaN and what does not convert match nothing. |
| Rules.NonNumbersCompare | axg/rules.py:71-75 | An instance: `true` is greater than 0, and `"500"` at least 500. |
| Rules.ConditionStaysInItsNamespace | axg/rules.py:31-69 | Whether a condition on `verified` holds or raises does not depend on the request, and for any other not on the signed facts. |
| Rules.NamespaceNonInterference | axg/engine.py:153-156 | Which rules trigger, and whether evaluating them raises, depends on the request only through conditions outside `verified`, and on the signed facts only through conditions inside it. |
| PyEquality.PyEqIsEquivOffBooleans | axg/rules.py:42-45 | Values Python calls equal are the same JSON exactly when booleans stand only against booleans, at every depth. |
| PyEquality.BooleansAreIntegers | axg/rules.py:42-45 | A boolean equals exactly what its integer, 1 or 0, equals. |
| PyEquality.SpecialFloats | axg/rules.py:42-45 | NaN equals nothing, an infinity only itself. |
| SignedContext.VerifySignedContext | axg/context.py:137-164 | The loop computes the context the laws below are about; with an invalid configuration every token is rejected. |
| SignedContext.ContextConservation | axg/context.py:152-161 | Facts and rejections number the tokens; each provider's facts are those of its earliest valid token; no provider appears twice. |
| SignedContext.InvalidTokensIgnored | axg/context.py:152-157 | Invalid tokens inserted anywhere leave the facts as they are. |
| SignedContext.UniquenessExactly | axg/context.py:100-103 | The check by counting accepts a configuration exactly when no issuer and no id is repeated. |
| SignedContext.FactsExactly | axg/context.py:109-161 | With an accepted configuration, the facts under a provider's id are those of the first token that provider vouches for: signed with its key, in time, for this tenant, audience and user; there are none exactly when it vouches for no token. |
| SignedContext.TokenExactly | axg/context.py:109-134 | A token yields facts under a provider's id exactly when that provider vouches for it. |
| SignedContext.RejectionExactly | axg/context.py:113-134 | Why a token is rejected: its issuer, a missing claim, or the first check that fails. |
| SignedContext.RejectionsInOrder | axg/context.py:152-161 | Each rejected token adds its own reason, or that it is a duplicate, in the order of the tokens. |
| Scoring.ClampMonotone | axg/engine.py:426-427 | Rounding and clamping keep order. |
| Scoring.ClampOnGrid | axg/engine.py:426-427 | Rounding and clamping keep every multiple of 0.0001 in [0, 1]. |
| Scoring.RoundsToNearest | axg/engine.py:426-427 | No multiple of 0.0001 is nearer than the one rounded to, and of two equally near the even one is taken. |
| Scoring.ClampIsClose | axg/engine.py:426-427 | A score lies on the grid, within half of 0.0001 of its value kept in [0, 1]. |
| Engine.UncertaintyScore | axg/engine.py:429-444 | The accumulated score is the clamped sum of its signals, raised to the threshold for a gated write of unknown intent. |
| Engine.BuildPayload | axg/engine.py:276-288 | The dict built step by step is the payload of `PayloadValue`. |
| Engine.AuditFlags | axg/engine.py:315-336 | The list built step by step is the one of `FlagsExactly`. |
| Engine.Evaluate | axg/engine.py:59-143 | The staged pipeline answers what the laws below are about, or raises where a rule's comparison or the gate does. |
| EngineProperties.FinalDecisionExactly | axg/engine.py:200-224 | BLOCK, ALLOW and SUGGEST each hold exactly for the stated combination of rules, permissions, gate and, when none of them spoke, of declared action and confidence thresholds. |
| EngineProperties.DecisionExactly | axg/engine.py:59-143 | When the evaluation raises, and the returned BLOCK, SUGGEST and ALLOW exactly, through context, caller and signing. |
| PolicyProperties.ConfidenceNeverRaises | axg/engine.py:220-224 | More confidence never makes the decision of rules, permissions, gate and thresholds stricter. |
| PolicyProperties.ConfidenceRaisesExactly | axg/engine.py:87-110 | It makes the returned decision stricter exactly where a SUGGEST would become an ALLOW that an anonymous caller, a key that fails or an unprintable payload turns into CONFIRM. |
| PolicyProperties.PermissionsExactly | axg/engine.py:226-241 | Permissions are held exactly when the action is undeclared, or the agent asks for each required one and the caller may grant it. |
| PolicyProperties.ContextMissingExactly | axg/engine.py:158-161 | Required context is missing exactly when a declared action requires a provider that vouches for none of the tokens. |
| PolicyProperties.AnswerExactly | axg/engine.py:123-141 | The answer names its request, policy and triggered rules and holds the decided payload, key by key, with a token or without. |
| PolicyProperties.FailSafeIsWorst | axg/engine.py:338-360 | Without a policy: CONFIRM, no token, no payload, one flag, and scores no policy's are worse than. |
| PolicyProperties.LabelsExactly | axg/models.py:246-248 | For policy names without "@", equal labels are equal names and versions. |
| EngineProperties.UndeclaredAllowedExactly | axg/engine.py:215-218 | An undeclared action is allowed exactly when rules trigger, all say ALLOW, the gate is silent, the caller is authenticated and signing works or is not needed. |
| EngineProperties.AllowRuleLowers | axg/engine.py:209-218 | An instance: one ALLOW rule turns the CONFIRM of an undeclared action into ALLOW. |
| EngineProperties.StagesOnlyRaise | axg/engine.py:59-143 | The decision is never below a triggered rule, missing permission, fired gate or missing context; without a policy it is CONFIRM, and an anonymous caller never gets ALLOW. |
| EngineProperties.PassportExactly | axg/engine.py:92-121 | A Passport exactly for a loaded policy, ALLOW and no shadow mode; a ticket exactly for an authenticated, non-shadow CONFIRM or SUGGEST whose payload and key can sign and whose rules and gate do not raise `passport_signing_failed`. |
| EngineProperties.SigningFailedExactly | axg/engine.py:106-121 | That flag is set exactly by a rule or gate that uses the name, or by an ALLOW that could not be signed. |
| EngineProperties.FlagSuppressesTicket | axg/engine.py:115-121 | An instance: a CONFIRM rule called `passport_signing_failed` gets no ticket though the key works. |
| EngineProperties.StricterNeverLowers | axg/engine.py:66-110 | Adding CONFIRM or BLOCK rules anywhere, or taking permissions from the caller, never lowers the decision, and never makes an evaluation that raised answer. |
| EngineProperties.PermissionsShrink | axg/auth.py:44-49 | What a caller with fewer permissions may vouch for, a caller with more may too. |
| EngineProperties.RuleOrderMatters | axg/engine.py:94-110 | Reordering rules never changes whether the evaluation raises, and changes the decision exactly when an ALLOW is to be signed and only one order leaves a payload with a canonical text. |
| Scenarios.OrderChangesDecision | axg/engine.py:286-287 | An instance: a rule writing NaN and a rule overwriting it give ALLOW in one order and CONFIRM in the other. |
| EngineProperties.GateExactly | axg/engine.py:429-466 | For every request: the gate fires exactly on a gated write whose signals add up to the threshold, or from an uncertain source without intent when rounding does not fall below the threshold, as on the 0.0001 grid it never does. |
| PolicyProperties.DefaultGateExactly | axg/engine.py:429-466 | A gate at 0.7 fires exactly on a gated write of unknown intent, or of an uncertain source without any intent. |
| PolicyProperties.GateRaisesExactly | axg/engine.py:450-458 | The gate raises exactly on a list or object as proposed action or resolved intent that it meets before a gated name. |
| PolicyProperties.GatedWriteExactly | axg/engine.py:450-458 | A gated name is the action, the text proposed as the action, or the resolved intent. |
| PolicyProperties.SourceExactly | axg/engine.py:446-448 | A source is uncertain exactly when it is listed or ends in a listed suffix. |
| EngineProperties.FallbackStaysSilent | axg/engine.py:434-437 | An instance: a resolver that fell back leaves a gate at 0.7 silent. |
| EngineProperties.BlockOutvotesGate | axg/engine.py:212-216 | An instance: a fired gate and a blocking rule give BLOCK. |
| EngineProperties.ListActionRaises | axg/engine.py:454-458 | An instance: a list as `proposed_action` leaves the request without an answer. |
| EngineProperties.GateSilentOffGrid | axg/engine.py:426-427 | An instance: threshold 0.70004. |
| EngineProperties.ScoresMonotone | axg/engine.py:243-274 | Scores lie in [0, 1]; more triggered rules never lower the risk nor raise the final confidence. |
| PolicyProperties.ScoresExactly | axg/engine.py:243-274 | Each score, to within rounding: confidence less penalties, the action's risk plus the rules', and the uncertainty signals, raised to the threshold for a gated write of an uncertain source without intent. |
| PolicyProperties.SumsExactly | axg/engine.py:249-262 | Each triggered rule adds its own penalty, 0.1, 0.25 or 0.5 by decision when that is 0, and its own risk. |
| EngineProperties.StrictestRoleWins | axg/engine.py:192-198 | The role is that of the strictest matched rule naming one, the earliest among equals; none is found exactly when no rule names one. |
| PolicyProperties.ApproverExactly | axg/engine.py:192-198 | The required role: that rule's, else the action's, else the policy's. |
| EngineProperties.PayloadValue | axg/engine.py:276-288 | Key by key, what the payload holds: the last rule's value, else the category rewrite, else the request's, with the action type as default action. |
| EngineProperties.PayloadWellFormed | axg/engine.py:276-288 | The payload is a dict again: no key twice at any depth. |
| EngineProperties.FlagsExactly | axg/engine.py:315-336 | Each flag once, and exactly those of rules, intent, gate and shadow mode. |
| PolicyProperties.AnswerFlagsExactly | axg/engine.py:74-111 | The flags of an answer, exactly: those of rules, intent, gate and shadow mode, and one for each of rejected tokens, missing context, an anonymous ALLOW and a failed signature. |
| PolicyProperties.FirstFlag | axg/engine.py:322-336 | With a triggered rule, the first flag is the first one's. |
| EngineProperties.DedupExactly | axg/engine.py:336 | Deduplication leaves distinct flags, and changes nothing exactly when they were distinct. |
| Approvals.SubmitExactly | axg/approvals.py:43-131 | `submit` answers exactly when the ticket is live under a known key, caller, payload, role, approver and policy label fit, and, to approve, the key signs; the Passport's id is the ticket's. |
| Approvals.RejectionExactly | axg/approvals.py:43-131 | Why an approval is rejected: an anonymous caller first, then the ticket, then the first failing check of caller, payload, role, approver, policy and key. |
| Replay.ReplayCache.CheckAndStore | sdks/axg-python-sdk/axg_python_sdk/__init__.py:48-55 | True exactly for an id not held; the new state keeps the live entries and adds this one when it was fresh. |
| Replay.CacheHolds | sdks/axg-python-sdk/axg_python_sdk/__init__.py:48-55 | After any history the cache holds an id live exactly when an accepted presentation of it has not expired. |
| Replay.RefusedExactly | sdks/axg-python-sdk/axg_python_sdk/__init__.py:48-55 | In any history, a presentation is refused exactly when an earlier accepted one of the same id has not expired. |
| Sdk.VerifyMcpToolCall | sdks/axg-python-sdk/axg_python_sdk/__init__.py:202-247 | The verdict and the cache after it, for every call; a refusal for the arguments comes after the Passport was stored. |
| Sdk.AcceptedExactly | sdks/axg-python-sdk/axg_python_sdk/__init__.py:58-137 | A call is accepted exactly when signature, window, audience, tenant, tool, payload and arguments fit and the cache does not hold the id; then the id is stored until the Passport expires. |
| Sdk.VerdictExactly | sdks/axg-python-sdk/axg_python_sdk/__init__.py:58-247 | The verdict of every call: the error of the first check that fails, of token, decision, tenant, tool, payload, id, replay and arguments. |
| Sdk.SpentExactly | sdks/axg-python-sdk/axg_python_sdk/__init__.py:120-128 | A Passport that passes is spent, by an accepted call or one refused for its arguments, exactly when the cache does not hold its id, and a replay otherwise; either way it is stored. |
| Sdk.AuthorizedIsBound | sdks/axg-python-sdk/axg_python_sdk/__init__.py:240-246 | Arguments matched against one payload are in every payload that is the same JSON, integers read as doubles. |
| Sdk.BoundExactly | sdks/axg-python-sdk/axg_python_sdk/__init__.py:240-246 | A payload authorizes arguments exactly when it binds them as doubles and none differs from it in an integer that is no double. |
| Sdk.LargeArgumentChanges | sdks/axg-python-sdk/axg_python_sdk/__init__.py:240-246 | An instance: with 2^53 + 1 decided and 2^53 presented and passed, hash and arguments match, and the decided payload does not hold the argument. |
| Sdk.AuthorizedArgumentExactly | sdks/axg-python-sdk/axg_python_sdk/__init__.py:240-246 | An accepted argument is the same JSON as the authorized value exactly when booleans stand only against booleans. |
| Sdk.BooleanPassesAsNumber | sdks/axg-python-sdk/axg_python_sdk/__init__.py:243 | An instance: `true` passes where 1 was authorized. |
| Protocol.StepKeepsInv | axg/approvals.py:43-70 | Every protocol step keeps the invariant: each recorded event was lawful after the ones before it, spent tokens were issued, each verdict is the one of the cache left by the calls before it, and the cache remembers every accepted Passport until it expires. |
| Protocol.RunsKeepInv | axg/engine.py:59-143 | So every run keeps it. |
| Protocol.AcceptedTicketIssued | axg/crypto.py:281-298 | A ticket that `submit` accepts was issued by AXG. |
| Provenance.IssuedClaims | axg/crypto.py:201-217 | A decision's own Passport or ticket names its app, tenant, tool, payload hash, policy, caller and expiry, and which of the two it is. |
| Provenance.ApprovedClaims | axg/approvals.py:54-68 | An approval's Passport carries the ticket's subject, app, tenant, tool, policy and id, and names the approver. |
| Provenance.Provenance | sdks/axg-python-sdk/axg_python_sdk/__init__.py:202-247 | In every run, each accepted call traces to an authenticated, non-shadow decision for the same app, tenant, tool and JSON payload: an ALLOW under five minutes old, or a CONFIRM or SUGGEST whose ticket the required role, not the agent, approved under an unchanged policy label. The decided payload holds every argument not ignored, integers read as doubles; payload and arguments only up to a collision of the hash. |
| Provenance.UnchangedExactly | sdks/axg-python-sdk/axg_python_sdk/__init__.py:240-246 | Of an accepted call, the decided payload holds the arguments as they are exactly when none differs from it in an integer that is no double. |
| Provenance.IntrospectionExactly | axg/crypto.py:301-326 | In every run, AXG calls a token active for an action and payload exactly when it issued it as a Passport, for an ALLOW or an approval, of that action and a payload of that hash, its key is still known and it has not expired. |
| SingleUse.NoPassportTwice | sdks/axg-python-sdk/axg_python_sdk/__init__.py:120-128 | In every run, accepted calls with one id are separated by the first Passport's expiry: no Passport twice, and the Passports of one ticket have strictly increasing expiries. |
| SingleUse.SecondUseExactly | sdks/axg-python-sdk/axg_python_sdk/__init__.py:51 | A second Passport with the id of an accepted one is accepted exactly from the first one's expiry on. |
| SingleUse.MismatchSpends | sdks/axg-python-sdk/axg_python_sdk/__init__.py:228-246 | After a refusal for its arguments, a Passport's right call is a replay until it expires. |
| Scenarios.WrongCallSpendsPassport | sdks/axg-python-sdk/axg_python_sdk/__init__.py:228-246 | A run: a forwarded call with another amount is refused for its arguments, the right one then as a replay. |
| SingleUse.ReplayedExactly | sdks/axg-python-sdk/axg_python_sdk/__init__.py:120-128 | In every run, a call whose Passport passes is refused as a replay exactly when an earlier call with its id got past the Passport check and that Passport has not expired. |
| SingleUse.CacheIsSpent | sdks/axg-python-sdk/axg_python_sdk/__init__.py:48-55 | In every run, the cache holds an id live exactly when a Passport with it was spent and has not expired. |
| SingleUse.TicketUsedTwiceExactly | axg/approvals.py:52-68 | Two approvals of one ticket can pay for two accepted calls exactly when their Passports expire in different seconds, whatever the ticket's lifetime. |
| SingleUse.PaidPasses | axg/approvals.py:52-68 | An approval's Passport passes every check of its executor exactly until five minutes after the approval. |
| Scenarios.ShortTicketPaysTwice | sdks/axg-python-sdk/axg_python_sdk/__init__.py:51 | A run: a ticket of sixty seconds, approved at 0 and at 30, pays for a call at 30 and one at 300. |
| Gateway.GovernToolsCall | integrations/agentcore/axg_interceptor.py:200-254 | The interceptor's output for every call, decision and introspection reply. |
| Gateway.ForwardsExactly | integrations/agentcore/axg_interceptor.py:200-254 | A call without Passport is forwarded exactly for an ALLOW, with the Passport and the decided payload, one with Passport exactly when its arguments match and AXG called it active; and when the governance service counts as unavailable. |
| ApprovalFlow.PassportForwardedExactly | integrations/agentcore/axg_interceptor.py:120-147 | In every run, a call with a Passport is forwarded, unchanged, exactly when its arguments match its payload, the gateway may act for the app, and AXG issued the Passport for that tool and a payload of that hash, under a key still known, and it has not expired. |
| Gateway.SurvivalExactly | axg/engine.py:276-288 | The authorized payload holds every argument exactly when no rule and no category rewrite changed one. |
| Gateway.InjectionIgnored | integrations/agentcore/axg_interceptor.py:249-253 | Injecting the `axg` argument changes no verdict on the arguments. |
| Gateway.FreshPassportPasses | sdks/axg-python-sdk/axg_python_sdk/__init__.py:76-128 | A Passport just issued passes every check of its executor for five minutes, arguments aside. |
| Gateway.GatewayCompleteness | integrations/agentcore/axg_interceptor.py:200-254 | A forwarded ALLOW is accepted by the tool before it expires, with or without the injected argument, exactly when no rewrite changed an argument and the cache does not hold the id. |
| Gateway.ResendPasses | integrations/agentcore/axg_interceptor.py:120-147 | A call that passes the executor's checks passes the gateway unchanged. |
| Gateway.ForwardedPassesAgain | integrations/agentcore/axg_interceptor.py:115-147 | A forwarded ALLOW whose arguments survived passes the gateway a second time, unchanged. |
| FreshIds.RunsKeepIdsKnown | axg/crypto.py:198-199 | In every run the replay cache holds only ids AXG has drawn, and every issued token carries one. |
| FreshIds.RunsKeepOnlyToken | axg/crypto.py:198-199 | In every run the Passport of a decision stays the only token of its id. |
| FreshIds.ForwardedCallAccepted | integrations/agentcore/axg_interceptor.py:200-254 | In any run, after any steps since the gateway decided and forwarded it, a call is accepted before its Passport expires exactly when no rewrite changed an argument and no call since got that Passport past its check. |
| ApprovalFlow.TicketSays | axg/engine.py:163-190 | The ticket names the request's app, tenant, action, policy, agent, user and required role, and the hash of the payload. |
| ApprovalFlow.ApprovalAcceptedExactly | axg/approvals.py:43-131 | A live ticket with the same JSON payload is accepted exactly from a caller and approver the policy admits, under an unchanged policy label. |
| ApprovalFlow.ApprovedPassportPasses | axg/approvals.py:52-68 | An approval's Passport passes every check of its executor for five minutes, arguments aside. |
| ApprovalFlow.RefusalOffers | integrations/agentcore/axg_interceptor.py:234-240 | A call is refused with exactly the ticket and payload of its decision. |
| ApprovalFlow.ApprovalCompleteness | integrations/agentcore/axg_interceptor.py:234-240 | A refused call whose offer was approved, repeated with the Passport, passes the gateway unchanged exactly when no rewrite changed an argument, and is accepted by the tool exactly when moreover the cache does not hold the ticket's id. |
| ApprovalFlow.ApprovedCallAccepted | integrations/agentcore/axg_interceptor.py:120-147 | In any run, after any steps since the approval, the repeated call is accepted before its Passport expires exactly when no rewrite changed an argument and no unexpired Passport of the ticket was spent. |
| Scenarios.AllowedCallHappens | integrations/agentcore/axg_interceptor.py:200-254 | A run through the gateway: the call is allowed, forwarded and accepted, and passes the gateway again, so the theorems on forwarded calls are not vacuous. |
| Scenarios.ApprovedCallHappens | integrations/agentcore/axg_interceptor.py:120-147 | The same for a refused call: offered, approved, repeated, forwarded and accepted. |
| Audit.VerifyAuditChain | axg/audit.py:71-84 | The least line that breaks the chain, blank lines counted; intact exactly when none does; raising exactly where `.get` or the hash raises. |
| Audit.FileAuditSink.Record | axg/audit.py:54-68 | The file and the last hash after one record, failures included. |
| Audit.RecordedExactly | axg/audit.py:54-66 | With the previous hash known, a record appends its one stamped and chained entry, or nothing if it cannot be hashed. |
| Audit.EntryExactly | axg/audit.py:59-66 | What is written, key by key: timestamp, previous hash, its own hash, which is that of the other fields, and every other field as logged. |
| Audit.RecordKeepsSynced | axg/audit.py:54-66 | Each record keeps the file verifiable and earlier lines as they were. |
| Audit.EveryLogVerifies | axg/audit.py:45-68 | Any sequence of records and restarts on a verified log leaves a verified log. |
| Audit.EveryRecordIsWritten | axg/audit.py:45-68 | Over any records and restarts, every record that can be hashed is written, in order and as logged, and no earlier line changes. |
| Audit.ChainHashIgnoresOrder | axg/audit.py:63 | Writing a record's members sorted changes no hash. |
| Audit.ReorderedVerifies | axg/audit.py:63 | A file whose lines hold the same members in another order, as the writer sorts them, verifies too. |
| Audit.RaisingLines | axg/audit.py:77-82 | Instances: a list as a line, and a linked entry holding NaN, make the verifier raise. |
| AuditText.LineEndsExactly | axg/audit.py:74 | The ten characters `splitlines` ends a line at. |
| AuditText.FramedExactly | axg/audit.py:74 | Texts written line by line are read back as those lines exactly when none holds a line end of `splitlines`. |
| AuditText.DumpsBreaks | axg/audit.py:63 | A record's text holds a line end exactly when a string in it holds U+0085, U+2028 or U+2029. |
| AuditText.DumpsExactly | axg/audit.py:63 | The texts of literals, and the separators of arrays and dicts. |
| AuditText.SortByKeySorts | axg/audit.py:63 | Members are written in ascending order of their keys' code points, none lost. |
| AuditText.RecordsFramedExactly | axg/audit.py:63-74 | A file's records are read back line by line exactly when no string in them holds one of the three. |
| Audit.TamperEvidence | axg/audit.py:28-30 | Two chains sharing a record_hash agree in length and content up to it, unless the hash collides on them or takes the genesis value. |
| Audit.VerifiedFilesAgree | axg/audit.py:71-84 | The same for two files that `verify_audit_chain` calls intact. |
| RateLimits.RateLimiter.Check | axg/limits.py:84-98 | The answer and the new windows, for every state, clock and limit. |
| RateLimits.AdmittedExactly | axg/limits.py:89-98 | In any history, a call is admitted exactly when there is no limit or fewer than `limit` calls of its caller were admitted in its minute. |
| RateLimits.SpanBound | axg/limits.py:77-98 | Any 60 seconds admit at most twice the limit of one caller. |
| RateLimits.CallersIndependent | axg/limits.py:91-97 | A verdict depends on the caller's own calls alone. |
| RateLimits.RetryAfterExactly | axg/limits.py:96 | A refusal names 1 to 60 seconds; waiting that long reaches the next window exactly when the time left is a whole number of seconds or at most one. |
| RateLimits.RetryFallsShort | axg/limits.py:96 | An instance: 58.5 seconds into a minute, the second it names is not enough. |
| BodyLimits.Handle | axg/limits.py:46-74 | The application is called exactly on a body that ends within the limit; otherwise the answer comes at the first message whose running total exceeds it. |
| BodyLimits.DeclaredExactly | axg/limits.py:52 | The last content-length header counts. |
| BodyLimits.DeclaresTooMuchExactly | axg/limits.py:53 | A declared length is refused exactly when it is a decimal numeral of a number over the limit. |
| BodyLimits.Replay.Receive | axg/limits.py:71-72 | The application's k-th receive returns the k-th message the client ever sent. |
| BodyLimits.OutcomeIsUnique | axg/limits.py:59-69 | A stream has one outcome. |
| BodyLimits.FitsExactly | axg/limits.py:57-69 | A complete body reaches the application exactly when its total is within the limit, however it was chunked. |
| Allowlist.AdmitsExactly | axg/plugin_loader.py:60-64 | The text test admits exactly the paths whose segments start with the entry's. |
| Allowlist.AllowlistedExactly | axg/plugin_loader.py:44-65 | A rooted target is allowed exactly when it parses, its decoded path has no dot segment, and an entry that parses has its scheme, host and port and, but for empty segments at the end, its first segments. |
| Allowlist.UnquoteEscape | axg/plugin_loader.py:55 | The first escape of a text, its digits in either case, decodes to its character, and the rest as it would alone. |
| Allowlist.UnquoteKeepsPlain | axg/plugin_loader.py:55 | A text without a well-formed escape decodes to itself. |
| Allowlist.UnquoteKeepsDots | axg/plugin_loader.py:55 | A dot segment of the raw path is still one after a pass of percent-decoding. |
| Allowlist.AcceptedIsFixedPoint | axg/plugin_loader.py:54-56 | An accepted raw path is a fixed point of remove_dot_segments (RFC 3986 section 5.2.4). |
| Strings.PartsPrefix | axg/plugin_loader.py:63 | A prefix of split parts is a text prefix ending at a separator, in both directions. |
| Base64Url.OctetsMinimal | axg/crypto.py:36-37 | The octets denote the integer and are the fewest that can. |
| Base64Url.IntRoundTrip | axg/crypto.py:32-38 | Every integer reads back from its base64url text. |
| Base64Url.AlphabetExactly | axg/crypto.py:38 | The alphabet of RFC 4648 section 5. |
| Base64Url.ZeroIsOneOctet | axg/crypto.py:34-35 | The special case for zero is what its one octet encodes to. |

## Left out

- HTTP routes, FastAPI and the command line (`axg/api.py`, `axg/cli.py`), the MCP gateway proxy, the .NET backend and the Node SDK: they carry the modelled steps over the network. Error statuses appear as "no reply". The rate limit in front of decisions, approvals and introspection (`axg/api.py:179-181`) is no part of the protocol's steps.
- RSA, JWT encoding, SHA-256, PEM and JWKS: signatures are symbolic and the hash is an arbitrary function, so a key is its thumbprint.
- `KeyManager` and `PluginLoader` as objects, environment parsing, API-key lookup and policy or provider caches: current and retired keys and loaded policies are part of the protocol state, and rotation and reload are steps.
- The gateway's reading of JWT claims into tenant, user, agent and scopes: the resulting identity is a parameter.
- Passport v1 and its legacy hash, and executors without a replay cache or with several trusted keys. All executors of a run share one replay cache, as the SDK asks of replicas; with separate caches single use holds per cache.
- Digit generation (`repr`) for doubles that are no integers: such a float is the decimal of its shortest digits.
- Rounding of binary floats in scores and rate windows: they are real numbers, `round(x, 4)` is half-even on them.
- `float(text)`, `str(value)` and `lower()` in rule conditions are parameters (`Rules.Runtime`); the request's `model_dump()` is a field of the request.
- Reasons, metadata, risk level, telemetry, logging, the webhook sink and record schemas: no decision depends on them.
- Non-string dict keys, lone surrogates, and Unicode digits in percent escapes.
- `urlparse`, DNS, address classification and remote fetching: the allowlist starts from parsed parts. Decoded bytes from 0x80 on count as one character outside ASCII.
- Parsing of audit lines, partial writes and write errors: the chain laws start from parsed lines, `AuditText` from records that are written whole, with the texts of floats as a parameter.
- Locks: each step is atomic.
- RateLimits.RateLimiter.Check: the limit is a parameter of each call; the laws over histories take it as fixed.
