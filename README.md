# Rüyamı Yorumla: a verified model of the dream-interpretation core

Rüyamı Yorumla ("interpret my dream") is a Next.js application. A visitor types
a dream on the home page. An API route asks one or two language-model
providers for a Turkish interpretation and cleans the reply. The page then
renders the reply as titled sections of bullets and paragraphs. Registered
users can log in and keep a history of their dreams.

This project models that core in Dafny and proves properties of the model:

- `text.dfy` (module `Text`): the JavaScript string operations the code relies
  on. These are the `\s` class, `trim`, `split`, `indexOf`, `includes`,
  `replace` with a string pattern, and `toLowerCase`.
- `sanitizer.dfy` (module `Sanitizer`): `sanitizeInterpretation`, in its plain
  and Turkish variants. It strips characters outside a class, collapses
  whitespace runs and trims.
- `interpret_api.dfy` (module `InterpretApi`): the five interpretation
  endpoints (`interpret`, `interpret-combined`, `interpret-openai`,
  `interpret-aiml`, `interpret-deepseek`), each as a function of the request and
  of the provider replies. Each result is a response together with the row
  saved to the `dreams` table, if any.
- `symbols.dfy` (module `Symbols`): the `DreamInterpreter` class. It holds a
  five-entry symbol table and appends a line for every symbol the dream
  mentions.
- `sections.dfy` (module `Sections`): the home page's parser for an
  interpretation. It also models the dream textarea's limits, the
  `Authorization` header and logout.
- `users.dfy` (module `Users`): the user schema, the register and login routes,
  and the user collection. The collection is a class holding a map from stored
  e-mail to user, because the schema makes the e-mail a unique index.
- `dreams.dfy` (module `Dreams`): the dream-history route
  (`/api/dreams`), with bearer-token authentication and a newest-first
  listing. The collection is a class holding the records in insertion order.

The model treats as inputs everything the code obtains from outside:
provider replies, Gemini generation, token verification and signing, password
hashing and comparison, database connection outcomes, environment variables,
and the clock.

## Model

| member | source | states |
|---|---|---|
| Text.Trim | pages/api/interpret-aiml.ts:34 | the result is the input without its leading and trailing whitespace: what is removed is whitespace, the result does not start or end with whitespace, and it is empty exactly when the input is all whitespace |
| Text.TrimUnique | pages/index.tsx:398-411 | whitespace wrapped round a non-empty trimmed text is exactly what `trim` removes |
| Text.TrimAround | pages/index.tsx:398-411 | adding whitespace at either end does not change what `trim` returns |
| Text.TrimOfTrimmed | pages/index.tsx:411 | `trim` leaves text with no whitespace at its ends unchanged |
| Text.IndexOfIs | pages/index.tsx:404 | an occurrence with none before it is the index `indexOf` returns |
| Text.TrimSides | pages/api/interpret-aiml.ts:34 | the input is the removed leading whitespace, then the trimmed text, then the removed trailing whitespace |
| Text.IndexOf | pages/index.tsx:404 | the result is the first index where the pattern occurs, and `None` exactly when it occurs nowhere |
| Text.Contains | utils/dreamInterpreter.ts:57 | `includes` holds exactly when the pattern occurs at some index |
| Text.ReplaceFirst | pages/api/interpret-aiml.ts:163 | `replace` with a string pattern changes only the first occurrence, and returns the text unchanged when there is none |
| Text.Split | pages/index.tsx:389-390 | there is always at least one piece |
| Text.SplitJoin | pages/index.tsx:389-390 | joining the pieces with the separator gives the text back, and no piece contains the separator |
| Text.SplitCutsFirst | pages/index.tsx:389-390 | each cut is at the first occurrence of the separator after the previous cut: every piece but the last is followed by the first occurrence of the separator after it, so an overlapping separator is cut leftmost |
| Text.FirstCut | pages/index.tsx:389 | the first piece is followed by the first occurrence of the separator |
| Text.SplitOverlapping | pages/index.tsx:389 | `"***".split("**")` is `["", "*"]`: the leftmost occurrence wins |
| Text.SplitWithoutSeparator | pages/index.tsx:390 | text without the separator splits into itself alone |
| Text.LowerChar | utils/dreamInterpreter.ts:57 | lower-casing one character maps whitespace to itself and creates no whitespace from anything else |
| Text.ToLowerAppend | utils/dreamInterpreter.ts:57 | lower-casing works character by character: the lower case of a concatenation is the concatenation of the lower cases |
| Text.ToLowerNoSpace | models/user.ts:14-16 | lower-casing neither creates nor removes whitespace, and maps only the empty string to the empty string |
| Text.LowerOfSpace | models/user.ts:14-15 | whitespace is its own lower case |
| Text.ToLowerTrimmed | models/user.ts:14-15 | lower-casing a non-empty text without whitespace at its ends gives such a text |
| Text.TrimLowerCommute | models/user.ts:14-15 | the schema's `trim` and `lowercase` setters give the same stored e-mail in either order |
| Sanitizer.Strip | pages/api/interpret-aiml.ts:32 | only characters of the kept class remain, and text made only of such characters is unchanged |
| Sanitizer.Collapse | pages/api/interpret-aiml.ts:33 | the result has no two adjacent spaces, its only whitespace is a single space, its other characters come from the input, and it is empty only for empty input |
| Sanitizer.Sanitize | pages/api/interpret-aiml.ts:30-35 | the output is clean: only allowed characters, no whitespace other than single spaces, none at the ends, and never longer than the input |
| Sanitizer.CollapseOfCollapsed | pages/api/interpret-aiml.ts:33 | text whose only whitespace is single spaces is unchanged by the collapse |
| Sanitizer.SanitizeFixedPoints | pages/api/interpret-openai.ts:71-76 | sanitising leaves a text unchanged exactly when it is already clean |
| Sanitizer.SanitizeIdempotent | pages/api/interpret-deepseek.ts:25-30 | sanitising twice gives what sanitising once gives |
| Sanitizer.CleanBasicIsAscii | pages/api/interpret-deepseek.ts:27 | text that is clean under the plain class holds only ASCII characters |
| Sanitizer.BasicOutputIsAscii | pages/api/interpret-deepseek.ts:27 | the plain variant's output is pure ASCII, so Turkish letters never survive it |
| Sanitizer.StripVisible | pages/api/interpret-aiml.ts:32 | the strip keeps, in order, every non-whitespace character of the class |
| Sanitizer.CollapseVisible | pages/api/interpret-aiml.ts:33 | the collapse keeps every non-whitespace character, in order |
| Sanitizer.TrimVisible | pages/api/interpret-aiml.ts:34 | `trim` keeps every non-whitespace character, in order |
| Sanitizer.SanitizeKeepsText | pages/api/interpret-openai.ts:71-76 | the non-whitespace characters of the output are exactly those of the input that belong to the class, in order: nothing else is lost or added |
| InterpretApi.MethodGate | pages/api/interpret-combined.ts:52-68 | a preflight request gets an empty 200; any method other than POST gets 405; only POST goes on |
| InterpretApi.CheckDream | pages/api/interpret-combined.ts:87-109 | a request goes on exactly when the body has a non-empty string `dream` of at most 1000 characters; otherwise 400, or 500 when a truthy non-string dream meets the substring log line |
| InterpretApi.ReplyText | pages/api/interpret-combined.ts:169-174 | provider text is taken only from a reply that passes the shape test |
| InterpretApi.RawReplyTextAgrees | pages/api/interpret-deepseek.ts:131-134 | reading the reply without the shape test, where every missing link throws, fails on the same replies and yields the same text |
| InterpretApi.SavedRow | pages/api/interpret-combined.ts:237-259 | a row is saved exactly when there is a non-empty token, a configured database, a user for the token and a successful insert; it holds that user, the trimmed dream, the returned text and the model name |
| InterpretApi.Deliver | pages/api/interpret-aiml.ts:154-212 | without usable text the answer is the busy 503 with nothing saved; otherwise the sanitised text is returned, and any saved row holds that same text |
| InterpretApi.CleanBasicIsPlain | pages/api/interpret-combined.ts:31-35 | plain-sanitised text has no line break and no '#' |
| InterpretApi.FallbacksArePlain | pages/api/interpret-combined.ts:191 | neither apology text has a line break or a '#' |
| InterpretApi.DeepSeekPart | pages/api/interpret-combined.ts:124-193 | the DeepSeek half is exactly the plain-sanitised reply text, which is clean and keeps every class character of it, or the fixed apology when the call fails or the reply is malformed |
| InterpretApi.GeminiPart | pages/api/interpret-combined.ts:197-231 | the Gemini half is exactly the plain-sanitised generated text, which is clean and keeps every class character of it, or the fixed apology when generation fails |
| InterpretApi.HeadingIndex | pages/api/interpret-combined.ts:234 | the first Gemini heading in the combined text is the one placed after the DeepSeek half |
| InterpretApi.PlainHasNoHeading | pages/api/interpret-combined.ts:234 | a half without line breaks cannot contain the Gemini heading |
| InterpretApi.NoHeadingBefore | pages/api/interpret-combined.ts:234 | the Gemini heading occurs nowhere before the point where it is placed |
| InterpretApi.CombinedSplit | pages/api/interpret-combined.ts:234 | splitting the combined text at the Gemini heading gives back the DeepSeek part under its heading and the Gemini part: the composition can be undone |
| InterpretApi.Combined | pages/api/interpret-combined.ts:52-280 | 200 exactly for a preflight, or for a POST with both keys and a valid dream; a missing key gives 503 before the body is looked at; never the busy 503; the text is the two halves under their headings; saved only as `SavedRow` says |
| InterpretApi.CombinedToleratesProviders | pages/api/interpret-combined.ts:180-231 | neither provider's reply changes the status or whether a row is saved |
| InterpretApi.CombinedResponseSplits | pages/api/interpret-combined.ts:234-263 | every successful combined response splits at the Gemini heading into exactly its two halves |
| InterpretApi.SanitizerChanges | pages/api/interpret-combined.ts:31-35 | text holding a character outside the plain class is changed by the plain sanitiser |
| InterpretApi.FallbackBypassesSanitizer | pages/api/interpret-combined.ts:191-192 | the apology texts are returned unsanitised, and the sanitiser would have changed them (they hold an apostrophe) |
| InterpretApi.KeyWithFallback | pages/api/interpret-aiml.ts:15 | with a built-in fallback the key is never empty, and a configured key is used as set |
| InterpretApi.Aiml | pages/api/interpret-aiml.ts:37-223 | 200 exactly for a preflight, or for a valid dream with a well-shaped reply; the interpretation is exactly that reply's text, plain-sanitised, so it is clean and keeps every class character; otherwise 503 busy; never the key 503, because of the fallback key; saved only as `SavedRow` says |
| InterpretApi.MockReplyText | pages/api/interpret-openai.ts:21-57 | the canned reply passes the shape test and carries the mock text |
| InterpretApi.OpenAi | pages/api/interpret-openai.ts:78-269 | 200 exactly for a preflight, or for a POST with a valid dream and a reply that passes the shape test; every interpretation is that reply's text, Turkish-sanitised; never the missing-key 503, because of the fallback key; saved only as `SavedRow` says |
| InterpretApi.OpenAiWithMockNeverBusy | pages/api/interpret-openai.ts:19-165 | with the mock switched on, as the source has it, the endpoint never answers 503 and answers 200 exactly for a preflight or a POST with a valid dream |
| InterpretApi.OpenAiIgnoresProvider | pages/api/interpret-openai.ts:19-57 | with the mock switched on, the real provider's reply changes nothing, and all successful answers carry the same text, whatever the dream |
| InterpretApi.DeepSeek | pages/api/interpret-deepseek.ts:32-179 | no key gives 503 for a POST; 200 exactly for a preflight, or for a key, a valid dream and a well-shaped reply; the interpretation is exactly that reply's text, plain-sanitised; never 500; saved only as `SavedRow` says |
| InterpretApi.DeepSeekMatchesAiml | pages/api/interpret-deepseek.ts:79-91 | for a string dream DeepSeek answers as AIML does; a truthy non-string dream gets 400 from DeepSeek but 500 from AIML |
| InterpretApi.PromptInjective | pages/api/interpret.ts:38-63 | different dreams give different prompts, so Gemini's reply can be taken as a function of the dream |
| InterpretApi.Interpret | pages/api/interpret.ts:5-77 | a preflight gets an empty 200 and any other method than POST the 405; a POST succeeds exactly for a string dream of at least 3 characters for which generation succeeds, and returns the generated text as it is, unsanitised; a missing, non-string or short dream gets the 400 with its fixed details; a missing body and a failed generation get the 500 whose details are the thrown message, or the unknown-error text when what is thrown has none |
| InterpretApi.InterpretHasNoUpperBound | pages/api/interpret.ts:29 | a dream over 1000 characters, which the other endpoints refuse with 400, is accepted here when generation succeeds |
| Symbols.SymbolTable | utils/dreamInterpreter.ts:11-17 | the table has exactly five entries |
| Symbols.Keys | utils/dreamInterpreter.ts:56 | `Object.keys` lists each entry's key, in table order |
| Symbols.SymbolTableKeys | utils/dreamInterpreter.ts:11-17 | the table's keys are `uçmak`, `düşmek`, `ev`, `su` and `araba`, in that order |
| Symbols.SymbolKeysLowerCase | utils/dreamInterpreter.ts:56-58 | the keys are distinct, non-empty and their own lower case |
| Symbols.FoundSymbols | utils/dreamInterpreter.ts:56-58 | at most as many symbols are found as the table holds |
| Symbols.FoundSymbolsMembers | utils/dreamInterpreter.ts:56-58 | a symbol is found exactly when it is in the table and the lower-cased dream contains its lower-cased key |
| Symbols.FoundSymbolsInOrder | utils/dreamInterpreter.ts:56-58 | the found symbols keep the table's order |
| Symbols.SymbolLine | utils/dreamInterpreter.ts:67 | a symbol's line holds the key and the meaning plus seven fixed characters |
| Symbols.ReadingWithSymbols | utils/dreamInterpreter.ts:61-69 | with symbols found, the reading is the AI text, a blank line, the header and the symbol lines |
| Symbols.AppendixHasEveryLine | utils/dreamInterpreter.ts:66-68 | every found symbol's line occurs in the appended text |
| Symbols.ReadingShape | utils/dreamInterpreter.ts:61-71 | a reading starts with the AI text and a blank line; it is nothing more exactly when no symbol is found; otherwise the header follows at once and every found symbol's line occurs |
| Symbols.DreamInterpreter.constructor | utils/dreamInterpreter.ts:8-18 | the interpreter's symbol table is the fixed five-entry table |
| Symbols.DreamInterpreter.InterpretDream | utils/dreamInterpreter.ts:50-76 | a failing AI call ends in the method's own error; otherwise the loop builds exactly the reading of the AI text and the symbols the dream mentions |
| Sections.NonEmpty | pages/index.tsx:389 | `filter(Boolean)` keeps exactly the non-empty pieces |
| Sections.Pieces | pages/index.tsx:389 | every piece is non-empty and holds no "**" |
| Sections.SkipDigits | pages/index.tsx:395 | the scan stops at the first character that is not an ASCII digit |
| Sections.StripNumbering | pages/index.tsx:395 | a title only ever loses a prefix |
| Sections.StripNumberingOfNumbered | pages/index.tsx:395 | a title `<digits>.<whitespace><rest>` loses exactly its number, dot and whitespace |
| Sections.StripNumberingOfUnnumbered | pages/index.tsx:395 | a title that does not start with a digit is kept whole |
| Sections.ToItem | pages/index.tsx:398-413 | a line is a bullet exactly when its trimmed form starts with '-'; item text is always trimmed; a paragraph is the trimmed line |
| Sections.BulletText | pages/index.tsx:404 | a bullet's text is the trimmed line after its leading '-', trimmed again |
| Sections.FirstDash | pages/index.tsx:404 | the '-' that `replace` removes is the one that starts the trimmed line |
| Sections.Items | pages/index.tsx:398 | item texts are trimmed and paragraphs are never empty |
| Sections.ItemsCount | pages/index.tsx:398 | there is one item per non-blank line |
| Sections.ParseSection | pages/index.tsx:390-396 | a piece becomes a section exactly when its first line is non-empty and at least one more line follows; the title is that first line without its numbering |
| Sections.Shown | pages/index.tsx:389-420 | at most one section is shown per piece |
| Sections.SectionNeedsALineBreak | pages/index.tsx:390-391 | a heading with only a blank line below is shown with no items, and a heading alone is not shown |
| Sections.SplitAtStars | pages/index.tsx:389 | text without '*' before a "**" becomes the first piece |
| Sections.NoStarSplit | pages/index.tsx:389 | text without '*' is one piece |
| Sections.SingleLine | pages/index.tsx:390-391 | a piece without a line break is one line and is never shown |
| Sections.HeadingSplit | pages/index.tsx:389 | `**title**body` splits into an empty piece, the title and the body |
| Sections.HeadingPieces | pages/index.tsx:389 | `**title**body` yields the pieces title and body |
| Sections.BoldHeadingShowsNothing | pages/index.tsx:389-394 | one bold heading followed by its body, the layout the prompt asks for, shows no section |
| Sections.ItemLines | pages/api/interpret.ts:42-61 | an item is written as one line: `- text` for a bullet, the text for a paragraph |
| Sections.Flat | pages/index.tsx:389 | a reply in the prompt's layout has two pieces per section |
| Sections.FormatSplit | pages/index.tsx:389 | cutting a reply in the prompt's layout at "**" gives an empty piece, then each section's heading and body in turn, for any number of sections, numbered headings included |
| Sections.RestSplit | pages/index.tsx:389 | text without '*' followed by further sections splits into that text, then their headings and bodies |
| Sections.FormatPieces | pages/index.tsx:389 | the page's pieces for a reply in the prompt's layout are the headings and bodies, alternately |
| Sections.FormattedReplyShowsNothing | pages/index.tsx:389-394 | a reply in the exact layout that `pages/api/interpret.ts` asks for, numbered headings such as `1. GENEL ANLAMI:` included, shows no section at all (as written) |
| Sections.ExampleIsFormatted | pages/api/interpret.ts:42-43 | the reply `**1. GENEL ANLAMI:**` followed by one line and a blank line is in the prompt's layout |
| Sections.ExampleReplyShowsNothing | pages/index.tsx:389-394 | the page shows nothing for that reply (as written) |
| Sections.ExampleTitle | pages/index.tsx:395 | the prompt's heading `1. GENEL ANLAMI:` is displayed as `GENEL ANLAMI:` |
| Sections.ExampleReplyPaired | pages/index.tsx:389-414 | the corrected reading makes that reply one section titled `GENEL ANLAMI:` holding its line as a paragraph |
| Sections.FlatShowsNothing | pages/index.tsx:390-391 | no heading piece and no body piece of such a reply passes the section test |
| Sections.Paired | pages/index.tsx:389-414 | the corrected reading makes one section from each heading piece and the body piece after it |
| Sections.SplitAtNewline | pages/index.tsx:390 | a line without a line break becomes the first line |
| Sections.ItemLineParses | pages/index.tsx:398-411 | an item's line reads back as that item |
| Sections.BulletLineParses | pages/index.tsx:399-405 | a bullet's line `- text` reads back as that bullet |
| Sections.LinesSplit | pages/index.tsx:390 | item lines split back into the lines of the items |
| Sections.ItemsAppend | pages/index.tsx:398 | the items of two runs of lines are the items of each, in order |
| Sections.ItemsOfLines | pages/index.tsx:398-413 | the lines of good items read back as those items |
| Sections.BodyItems | pages/index.tsx:398-413 | a section body reads back as its items; the blank lines around them are dropped |
| Sections.Displayed | pages/index.tsx:395 | the sections as the page titles them: the same items, each heading without its numbering |
| Sections.DisplayedUnnumbered | pages/index.tsx:395 | headings that do not start with a digit are displayed as they are |
| Sections.PairedFlat | pages/index.tsx:389-414 | pairing the headings and bodies of sections gives those sections back, each heading without its numbering |
| Sections.PairedReadsFormat | pages/index.tsx:389-414 | the corrected reading recovers every section of a reply in the prompt's layout, in order and with the same bullets and paragraphs, each heading without its numbering; without numbered headings it recovers the sections exactly: reading inverts formatting |
| Sections.AcceptInput | pages/index.tsx:335-339 | the textarea holds a prefix of what is typed: all of it up to 500 characters, exactly 500 beyond that |
| Sections.SubmittedDream | pages/index.tsx:339-352 | a dream of fewer than 3 characters that the form lets through is refused by the endpoint with 400; any longer one succeeds exactly when generation does |
| Sections.Logout | pages/index.tsx:244-249 | logout removes the stored token and user, clears the user and the dream list, and leaves the rest of the page state unchanged |
| Sections.AuthHeader | pages/index.tsx:172-175 | a submission carries `Bearer <token>` exactly when a non-empty token is stored |
| Sections.LogoutForgetsSession | pages/index.tsx:244-249 | after logout a submission carries no credentials, and logging out twice is logging out once |
| Users.Public | pages/api/auth/register.ts:115-122 | the user sent back has the stored id, name and e-mail, and no password |
| Users.EmailOfParts | models/user.ts:16 | every `a@b.c` with non-empty whitespace-free parts matches `^\S+@\S+\.\S+$` |
| Users.EmailParts | pages/api/auth/register.ts:52 | every match of the pattern is such an `a@b.c` |
| Users.LowerParts | models/user.ts:15 | lower-casing an address lower-cases its parts and keeps `@` and `.` |
| Users.EmailLowered | models/user.ts:15-16 | lower-casing keeps a matching address matching |
| Users.StoredEmailEitherOrder | models/user.ts:14-15 | the stored e-mail is the address trimmed and lower-cased, in either order |
| Users.NameErrors | models/user.ts:4-9 | the name passes the schema exactly when its trimmed form has at least 2 characters |
| Users.EmailErrors | models/user.ts:10-17 | the e-mail passes the schema exactly when its stored form matches the pattern |
| Users.PasswordErrors | models/user.ts:18-22 | the password passes the schema exactly when it has at least 6 characters |
| Users.SchemaErrors | models/user.ts:3-27 | a document is accepted exactly when all three fields pass; at most three messages |
| Users.CheckForm | pages/api/auth/register.ts:31-57 | the handler's checks pass exactly for non-empty fields, a password of at least 6, a name of at least 2, and an address matching the pattern |
| Users.CheckFormOrder | pages/api/auth/register.ts:31-57 | each check decides the 400 only when every earlier check passes, whatever the later ones say |
| Users.HandlerEmailPassesSchema | pages/api/auth/register.ts:52 | an address the handler accepts has no surrounding whitespace, so it is stored lower-cased and passes the schema's pattern |
| Users.PaddedNameFailsSchema | pages/api/auth/register.ts:45 | a name of whitespace and one character passes the handler's length check and fails the schema's |
| Users.RegisterFailure | pages/api/auth/register.ts:124-147 | a connection timeout gives 503; otherwise a ValidationError gives 400; otherwise 500, with the generic detail outside development |
| Users.RegisterResult | pages/api/auth/register.ts:6-148 | a preflight gets an empty 200 and any other method than POST the 405; a missing body gets the 500; the first failing form check gets its 400; a connection failure answers as `RegisterFailure` says; a user is added exactly on 201, with the next id and the current time, under an address not yet stored, valid under the schema, with trimmed name, normalised e-mail and the password's hash |
| Users.RegisterRefusesTakenEmail | pages/api/auth/register.ts:69-77 | an address already stored, in any spelling that normalises to it, is never registered again, and gets the duplicate 400 once the form and connection are fine |
| Users.RegisterSucceeds | pages/api/auth/register.ts:79-122 | a valid form for a free address with a reachable database and a working hash registers exactly the expected user |
| Users.JwtSecret | pages/api/auth/login.ts:7 | the signing secret is never empty, and a configured secret is used as set |
| Users.Login | pages/api/auth/login.ts:9-62 | 200 exactly for a POST with both fields, a reachable database, a stored user for the normalised address and a `comparePassword` that accepts the password; the answer carries that user's token and public data; every 401 carries the same message; any method other than POST gets the 405, a missing body the 500, a missing e-mail or password the 400, and a connection failure the 500 carrying its message or the unknown-error text. The schema as written defines no `comparePassword`, so 200 is reached only with one supplied (see Findings) |
| Users.LoginAsWritten | pages/api/auth/login.ts:31-61 | with the schema as written, login never answers 200, and a stored user with both fields on a live connection always gets the 500 |
| Users.RegisterThenLoginAsWritten | pages/api/auth/login.ts:31-61 | with the schema as written, someone who has just registered gets the 500 when logging in with the same address and password |
| Users.LoginFailuresLookAlike | pages/api/auth/login.ts:31-41 | an unknown address and a wrong password get the same answer |
| Users.RegisterThenLogin | pages/api/auth/login.ts:31-57 | with a `comparePassword` on the schema that accepts the registered password, someone who registered can log in with it under any spelling of the address that normalises to the stored one; the schema as written has none (see Findings) |
| Users.SchemaAcceptsStored | models/user.ts:3-27 | a form the schema accepts gives a valid stored document, whatever its id and date |
| Users.StoreResult | pages/api/auth/register.ts:69-122 | after connecting: 201 exactly when a user is added, otherwise 400 or 500; the user added is valid, under an address not yet stored, with the next id, the current time, the trimmed name, the stored e-mail and the password's hash |
| Users.StoreRefusals | pages/api/auth/register.ts:69-114 | a taken address gives the duplicate 400, then a failed hash the 500, then a schema refusal the validation 400 with the messages joined |
| Users.StoreSucceeds | pages/api/auth/register.ts:79-122 | a free address, a working hash and a document the schema accepts give 201 with exactly the expected user |
| Users.RegisterReachesStore | pages/api/auth/register.ts:31-69 | once the form passes the handler's checks and the database connects, the answer is decided by the lookup and the insert alone |
| Users.InsertKeepsTableValid | models/user.ts:13 | inserting a valid document under a free address with the next id keeps every address unique, every document valid and every id distinct |
| Users.UserTable.constructor | models/user.ts:32 | the collection starts empty and well formed |
| Users.UserTable.Store | pages/api/auth/register.ts:69-122 | the lookup and insert answer as `StoreResult` says, add exactly the user it names under its stored e-mail with the next id, and keep the collection well formed |
| Users.UserTable.Insert | pages/api/auth/register.ts:96-102 | a document accepted by the schema is filed under its free address with the next id, the id counter advances, and the collection stays well formed |
| Users.UserTable.Register | pages/api/auth/register.ts:6-148 | the route answers as `RegisterResult` says, adds exactly the user it names under its stored e-mail, and keeps the collection well formed |
| Dreams.BearerSpace | pages/api/dreams/index.ts:17 | in a `Bearer ` header the first space follows `Bearer` |
| Dreams.BearerSplit | pages/api/dreams/index.ts:17 | splitting such a header at spaces gives `Bearer`, then the fields of the rest |
| Dreams.TokenAfterPrefix | pages/api/dreams/index.ts:13-17 | a header starting `Bearer ` yields the first space-separated field after the prefix |
| Dreams.Token | pages/api/dreams/index.ts:17 | the extracted token has no space |
| Dreams.TokenOfHeader | pages/api/dreams/index.ts:13-17 | the header `Bearer <token>`, with or without more fields, yields that token |
| Dreams.FirstField | pages/api/dreams/index.ts:17 | the first field of `t rest` is `t` |
| Dreams.Authenticate | pages/api/dreams/index.ts:9-26 | a user id comes back exactly for a `Bearer ` header whose token verifies, and it is that token's user; a missing or malformed header is "No token" |
| Dreams.View | pages/api/dreams/index.ts:39-41 | a listed record keeps its id, text, interpretation and date |
| Dreams.Owned | pages/api/dreams/index.ts:39 | the query returns no more records than are stored |
| Dreams.OwnedAppend | pages/api/dreams/index.ts:39 | the query over two runs of records is the query over each, in order |
| Dreams.OwnedMembers | pages/api/dreams/index.ts:39 | a record is listed for a user exactly when it is theirs |
| Dreams.InsertByDate | pages/api/dreams/index.ts:40 | inserting one view adds exactly that view |
| Dreams.InsertByDateSorted | pages/api/dreams/index.ts:40 | inserting into a newest-first list keeps it newest first |
| Dreams.InsertByDateBounded | pages/api/dreams/index.ts:40 | inserting a view no newer than a date among views no newer than it keeps them all no newer than it |
| Dreams.SortNewestFirst | pages/api/dreams/index.ts:40 | the sort keeps the number of views |
| Dreams.SortNewestFirstSorted | pages/api/dreams/index.ts:40 | the sort's result is newest first |
| Dreams.SortNewestFirstPermutes | pages/api/dreams/index.ts:40 | the sort's result holds exactly the input's views, each as often |
| Dreams.SortNewestFirstCorrect | pages/api/dreams/index.ts:40 | the sort returns a permutation of its input, newest first |
| Dreams.HistoryIsOwnedNewestFirst | pages/api/dreams/index.ts:37-42 | GET lists every one of the user's records and nothing else, newest first |
| Dreams.OthersRecordsInvisible | pages/api/dreams/index.ts:39 | a record stored for someone else does not change a user's listing |
| Dreams.OwnRecordListed | pages/api/dreams/index.ts:39 | a record stored for a user is listed for them |
| Dreams.HandleResult | pages/api/dreams/index.ts:28-71 | a failed connection gives 500; 401 exactly when authentication fails on a live connection; 200 exactly for an authenticated GET, with the user's history; for an authenticated POST, a missing body gives 500, a missing field 400, a `dreamText` over 500 characters 500, and otherwise 201 with the record of the next id, the user, both fields and the current time appended; a record is added exactly on 201 |
| Dreams.UnauthenticatedGets401 | pages/api/dreams/index.ts:34-67 | without a usable token every method, even an unsupported one, gets 401 |
| Dreams.OtherMethodsRefused | pages/api/dreams/index.ts:60-62 | an authenticated request with another method gets 405 naming the method, and nothing is stored |
| Dreams.DreamStore.constructor | models/DreamQuery.ts:24 | the collection starts empty and well formed |
| Dreams.DreamStore.Handle | pages/api/dreams/index.ts:28-71 | the route answers as `HandleResult` says, appends exactly the record it names, and keeps the collection well formed |

## Left out

- Network and process I/O are not modelled: CORS headers, the `Allow: GET, POST` header of the dream-history route's 405, logging, and `res.status(..).end()` beyond its status. Provider calls, Gemini generation and Supabase are represented by their outcomes, given as inputs. MongoDB is represented by the connection's outcome and the collections' contents; failures after connecting are listed below.
- Lengths count code points, not UTF-16 code units. A dream with characters outside the Basic Multilingual Plane is longer in the source than in the model.
- `toLowerCase` is modelled for ASCII, Latin-1 and the Turkish capitals, with `İ` becoming `i` followed by U+0307. The other Unicode case mappings are not modelled.
- Request fields that are JSON values other than strings are modelled only for the interpretation endpoints' `dream`. Elsewhere every field is a string, and a missing or falsy one is the empty string. So the model does not capture what the code does with other values. Examples: a numeric password in registration passes the length check and makes the hash throw, giving 500; a numeric name skips the name check; an object e-mail reaches the login lookup as a query operator.
- Texts that the JavaScript engine produces are fixed strings. This covers the `TypeError` messages for a missing body and the message of an error thrown without one.
- Users.RegisterFailure: in development mode the 500 shows the thrown message. The model states only the message outside development.
- The duplicate-key branch of `User.create`, error code 11000, is not modelled. In a sequential model the lookup just before always finds the address first; only a concurrent registration reaches that branch.
- Registration and login cast the e-mail filter with the schema's setters, as Mongoose does for query filters. Mongoose's other casting rules are not modelled.
- MongoDB ObjectIds are modelled as natural-number counters, and dates as integers.
- Dreams.SortNewestFirst: records with equal dates keep insertion order. MongoDB promises no order for ties, so the model's order is one of those the source allows.
- Users.RegisterResult, Users.StoreResult, Users.Login: a database failure after connecting is not modelled. This covers a `findOne` that throws in registration or login, and a `create` that throws something other than a ValidationError. In the source each reaches the catch-all 500; the model has no input for it.
- Dreams.HandleResult: a database failure after connecting, for example a failed `find` or `create`, is not modelled, apart from the schema's 500-character limit.
- Tokens that verify but carry no `userId` claim are not modelled; `verify` returns the user id directly.
- `Promise.race` timeouts are represented by the connection-error input.
- The built-in provider keys are not modelled as values. `KeyWithFallback` uses a placeholder; only the fact that it is non-empty matters.
- InterpretApi.Interpret: Gemini generation is given as a function of the dream rather than of the prompt. `PromptInjective` shows that the prompt determines the dream, so nothing is lost.
- InterpretApi.OpenAi: the canned reply is a parameter, and `OpenAiWithMockNeverBusy` instantiates it with the source's `MockReply`. The real OpenAI call is an input that the switched-on mock makes unused.
- `config/gemini.ts` throwing at module load when the key is missing is not modelled. `InterpretApi.Interpret` assumes the module loaded.
- `DreamInterpreter.analyzeWithAI` is not modelled: the AI reading is an input of `InterpretDream`, and `None` stands for its error.
- The page's `fetchDreams` and `handleAuth`, and the rest of its rendering, are not modelled, and neither are the `test` pages and the `test-*` API routes.
- Sections.SubmittedDream: the form's `required` attribute and the `isLoading` flag come from the browser and React state; the lemma takes a page that is not loading.

## Findings

| source | as written | input that shows it | evidently intended | confidence | as-written member | corrected member |
|---|---|---|---|---|---|---|
| pages/index.tsx:389-394 | the page cuts the interpretation at "**" and shows a piece only when it has a non-empty first line and more lines. But the prompt of `pages/api/interpret.ts:38-63`, which the form posts to (pages/index.tsx:185), asks for headings as `**heading**` followed by the section on the next lines. So every heading piece is a single line and every body piece starts with an empty line, and nothing is shown | `"**1. GENEL ANLAMI:**\nRüya özgürlüğü anlatır.\n\n"`, the prompt's first heading with one line (`Sections.ExampleReply`) | each bold heading becomes a section holding the lines below it | medium, not executed | Sections.FormattedReplyShowsNothing | Sections.PairedReadsFormat |
| pages/api/auth/login.ts:38 | the handler calls `user.comparePassword(password)`, but the schema in `models/user.ts:3-27` defines no such method, so the call throws a TypeError for every stored user and the catch answers 500. Nobody can log in, including someone who has just registered | register with `name: "Ali"`, `email: "ali@example.com"`, `password: "secret1"`, then log in with the same address and password | the stored bcrypt hash is compared with the password, and the right password gets 200 with a token | high, not executed | Users.RegisterThenLoginAsWritten | Users.RegisterThenLogin |
