# Od learning app: the sequential core, in Dafny

This is a Dafny model of the logic behind "Od", a bilingual (Arabic and English) AI tutor for children. The model covers:

- **The AI explanation pipeline** (`src/lib/ai.ts`).
  - It picks the system prompt and builds the user message.
  - It cleans the model's reply: trim, remove the Markdown fences, trim again.
  - It parses the cleaned text. The parser is a function parameter.
  - It gives every image an image-service URL, built with `encodeURIComponent` as section 19.2.6 of ECMA-262 defines it (UTF-8 per RFC 3629, upper-case hex).
  - On any failure it falls back to a fixed apology in the caller's language.
  - The exercise and quiz generators are prompt wrappers around this pipeline.
- **The interface language** (`src/context/LanguageContext.tsx`, `src/lib/translations.ts`).
  - The initial language, `setLanguage` and `dir`.
  - The dotted-path lookup `t` over the constant dictionary. A path that runs into a missing entry comes back as itself.
- **Sign-in** (`src/lib/auth.ts`). `authorize` is a decision over the user list, with the password check as a parameter. The `jwt` and `session` callbacks copy claims.
- **The API route handlers.** Each one is a pure function from (session, request body, database, clock, model reply) to (status and body, new database, request sent to the model).
  - The database is one sequence per collection plus an id counter.
  - The Mongoose schemas become a string cast plus required and enum checks. A record that fails them is not stored, and the handler answers 500.

Module layout follows the source:

| Module | Models |
|---|---|
| `Ai` | `ai.ts` |
| `LanguageContext`, `Translations` | the context and the dictionary |
| `Auth` | `auth.ts` |
| `Models` | the four schemas |
| `Register`, `LessonGenerate`, `LessonList`, `LessonAsk`, `ExerciseGenerate`, `QuizGenerate`, `ProgressRoute` | one route each |

Support modules:

- `Strings`: occurrence, removal, trimming by the JavaScript white-space set, split and join.
- `Decimal`: integer text.
- `UriEncoding`: `encodeURIComponent`, with `decodeURIComponent` as its proved inverse.
- `Js`: JSON values with JavaScript truthiness, property access, `String()` and object spread.
- `Http`, `Store`, `Routing`: replies, the database and the `||` defaults.

How some JavaScript and library behaviour is modelled:

- A missing value (`undefined`) is `None`. `null` is `JNull`.
- Reading a property of `undefined` or `null` is a TypeError. A TypeError inside the explanation pipeline gives the fallback; inside a handler it gives 500.
- For `||` defaults, `""`, `0` and missing are falsy. So an age of 0 becomes 10.
- In a Mongoose filter, a field whose value is `undefined` is dropped. Such a field matches any record, so registering without an email finds "a user with that email" as soon as any user exists. A `null` filter value matches records that lack the field.
- `findOneAndUpdate` with upsert runs no validators. An `undefined` update field leaves the stored value as it is.
- A string field casts numbers and booleans to their text and refuses arrays and objects. A required string must be non-empty.
- In the dictionary, the `landing` section has fourteen keys in both languages (`src/lib/translations.ts:11-24` and `36-49`).

## Model

| member | source | states |
|---|---|---|
| Ai.SystemMessage | src/lib/ai.ts:38 | A non-empty override is the system message; an absent or empty override gives the default tutor prompt. |
| Ai.UserMessage | src/lib/ai.ts:26-30 | The user message starts with the task line followed by the content exactly. After the content come the age line and the language line, then the closing indentation. |
| Ai.Clean | src/lib/ai.ts:53-56 | The cleaned text is trimmed and never contains "```". When the trimmed reply has no "```", it is passed on exactly as trimmed. |
| Strings.RemoveFenceLeavesNone | src/lib/ai.ts:55 | Removing every "```" leaves no "```": the deletions can never join two fragments into a new fence. |
| Ai.CleanIdempotent | src/lib/ai.ts:53-56 | Cleaning an already cleaned text returns it unchanged. |
| Ai.CleanUnwrapsFence | src/lib/ai.ts:53-56 | A trimmed JSON text without backticks, on its own lines inside a "```json" or a bare "```" block, cleans to the JSON text itself. |
| Ai.FencedReplyReadsAsPlain | src/lib/ai.ts:53-68 | A fenced reply is handled exactly like the bare JSON text it wraps. |
| UriEncoding.Encode | src/lib/ai.ts:64 | The encoding uses only unreserved characters and upper-case `%XY` escapes, so it never contains `/`, `?`, `&`, `#` or `=`. It is between one and twelve times the input length. |
| UriEncoding.DecodeEncode | src/lib/ai.ts:64 | Decoding the encoding of any text gives the text back. |
| UriEncoding.EncodeInjective | src/lib/ai.ts:64 | Distinct texts have distinct encodings. |
| Ai.ImageUrl | src/lib/ai.ts:64 | The URL starts with the image endpoint and ends with the fixed size/no-logo query. |
| Ai.ImageUrlCarriesPrompt | src/lib/ai.ts:64 | The part of the URL between the endpoint and the query decodes to the style phrase followed by the prompt. |
| Ai.ImageUrlInjective | src/lib/ai.ts:64 | Distinct prompts give distinct URLs. |
| Ai.ImageUrlQueryIsFixed | src/lib/ai.ts:64 | The only `?` in the URL opens the fixed query, so no prompt can add or change query parameters. |
| Ai.EducationalImageMatchesInjection | src/lib/ai.ts:78-81 | `generateEducationalImage(t)` is the URL that injection attaches to an image whose prompt is `t`. |
| Ai.PromptText | src/lib/ai.ts:64 | Defined only for images whose rewriting does not throw. A string prompt is used as it is. A missing prompt reads as "undefined". |
| Ai.WithUrl | src/lib/ai.ts:62-65 | The rewritten image keeps every property it had, except `url`, which becomes the URL of its prompt. |
| Ai.InjectAll | src/lib/ai.ts:62-65 | The rewriting throws exactly when some image is `null` or has a prompt that cannot be converted to text (an object with its own `toString`, or an array holding one). Otherwise it keeps the number and order of images and rewrites each one. |
| Ai.InjectImages | src/lib/ai.ts:61-66 | Falsy `images` leave the value unchanged. A truthy non-array throws. An array throws exactly when one of its images does. Otherwise it is rewritten in place, and every other property of the value is kept. |
| Ai.OwnToStringPromptThrows | src/lib/ai.ts:64 | A prompt object with its own `toString`, or an array holding one, makes the rewriting throw. An object prompt without that key does not. |
| Ai.ThrowingImageGivesFallback | src/lib/ai.ts:61-74 | A parsed reply with one image whose rewriting throws yields the fallback explanation for the language. |
| Ai.FallbackText | src/lib/ai.ts:72 | The apology is the Arabic one exactly when the language is "ar". |
| Ai.Fallback | src/lib/ai.ts:71-74 | The fallback has exactly `text` (the apology) and `images` (empty). |
| Ai.Interpret | src/lib/ai.ts:46-75 | Each of these gives the fallback: a network failure, a non-OK status, an unparseable cleaned body, or a rewriting that throws. Otherwise the result is the parsed value with its images rewritten. The result is never `null`. |
| Ai.ExplainedImagesCarryUrls | src/lib/ai.ts:61-75 | Every image list an explanation returns consists of objects whose `url` is an image-service URL. |
| Ai.ExplainLesson | src/lib/ai.ts:25-76 | The request carries the chosen system message and the user message for the content and options, with the content in the task line. The result is the interpreted reply. |
| Ai.ExerciseSystemPrompt | src/lib/ai.ts:84-97 | The exercise system prompt starts with the fixed exercise instructions. After them come the language line and the age line, then the closing indentation. |
| Ai.QuizSystemPrompt | src/lib/ai.ts:102-116 | The quiz system prompt starts with the fixed quiz instructions. After them come the language line and the age line, then the closing indentation. |
| Ai.GenerateExercises | src/lib/ai.ts:83-99 | The call uses the exercise system prompt. Its user message is the one for the task "Generate exercises for: " followed by the lesson content. |
| Ai.GenerateQuiz | src/lib/ai.ts:101-118 | The call uses the quiz system prompt. Its user message is the one for the task "Create a quiz for: " followed by the lesson content. |
| LanguageContext.InitialLanguage | src/context/LanguageContext.tsx:18-23 | The language starts as "en". Only a non-empty saved value replaces it. |
| LanguageContext.SetLanguage | src/context/LanguageContext.tsx:25-28 | After `setLanguage(l)`, the language is `l` and `l` is saved. |
| LanguageContext.SetLanguageSurvivesReload | src/context/LanguageContext.tsx:20-28 | A language chosen with `setLanguage` is the language after a reload. |
| LanguageContext.Dir | src/context/LanguageContext.tsx:43 | The direction is "rtl" exactly for "ar", and "ltr" otherwise. |
| LanguageContext.Step | src/context/LanguageContext.tsx:34-37 | A step succeeds exactly when the current node is a section holding a truthy entry under the key. |
| LanguageContext.T | src/context/LanguageContext.tsx:30-41 | A language with no dictionary throws. A walk that reaches an entry returns it. A walk that fails returns the path itself. |
| LanguageContext.WalkAppend | src/context/LanguageContext.tsx:33-40 | Walking a joined key list is walking the first part, then the second part from where the first ended. |
| LanguageContext.WalkSucceedsStepwise | src/context/LanguageContext.tsx:33-40 | In a successful walk, every step found a truthy entry. |
| LanguageContext.LeafPathsResolve | src/context/LanguageContext.tsx:30-41 | Every `section.key` path of either dictionary returns its text, never the fallback. |
| LanguageContext.SectionPathReturnsSection | src/context/LanguageContext.tsx:30-41 | The path "common" returns the whole section, not a text. |
| LanguageContext.UnknownKeyReturnsPath | src/context/LanguageContext.tsx:34-37 | A path whose first key is not a section returns the path unchanged. |
| Translations.Dictionary | src/context/LanguageContext.tsx:32 | Only "en" and "ar" have a dictionary. |
| Translations.EnglishWellShaped | src/lib/translations.ts:2-26 | English has exactly the sections `common` (5 keys) and `landing` (14 keys), and every text is non-empty. |
| Translations.ArabicWellShaped | src/lib/translations.ts:27-51 | Arabic has exactly the same sections and keys as English, and every text is non-empty. |
| Auth.FindByEmail | src/lib/auth.ts:19 | The lookup finds the first user with the email, or reports that none has it. |
| Auth.Claims | src/lib/auth.ts:26-33 | The returned user carries id, name, email, role, language and age. It has no password field. |
| Auth.Authorize | src/lib/auth.ts:15-34 | The result is null when the email or password is missing or empty, when no user has the email, or when the password does not match the stored hash. Otherwise it is that user's claims. |
| Auth.Jwt | src/lib/auth.ts:38-46 | With a user, the token gains the user's id, role, language and age. Without one, the token is returned unchanged. |
| Auth.SessionOf | src/lib/auth.ts:47-55 | When the session has a user, the token's id, role, language and age are copied onto it. Otherwise the session is unchanged. |
| Auth.SignInReachesSession | src/lib/auth.ts:26-54 | After a sign-in, the session user carries the signed-in user's id, role, language and age. |
| Routing.OrText | src/app/api/auth/register/route.ts:23-25 | A string default applies when the value is missing or empty. |
| Routing.OrNumber | src/app/api/auth/register/route.ts:24 | A number default applies when the value is missing or 0. |
| Register.NewUser | src/app/api/auth/register/route.ts:17-26 | The stored password is the hash of the submitted password. Role, age and language default to "student", 10 and "en". |
| Register.Project | src/app/api/auth/register/route.ts:30-36 | The reply shows id, name, email, role and language only. |
| Register.Post | src/app/api/auth/register/route.ts:6-41 | A taken email gives 400 "User already exists" and changes nothing. A body that is not JSON, or a missing password, gives 500 and changes nothing. Otherwise exactly the new user is added, with 201. |
| Register.RegisterAddsAtMostOne | src/app/api/auth/register/route.ts:12-37 | The user list grows by one exactly when the reply is 201. Nothing changes otherwise, and no other collection is touched. |
| Register.RegisterThenSignIn | src/app/api/auth/register/route.ts:12-26 | After a registration, signing in with the same email and password gives the new user's claims. |
| Register.RegisterKeepsIdsIssued | src/app/api/auth/register/route.ts:19-26 | Every stored id is still one the counter issued. |
| Models.CastString | src/models/Lesson.ts:5-10 | Strings stay as they are. Numbers and booleans cast to their JavaScript text. Arrays and objects are refused. `undefined` and `null` leave the field unset. |
| Models.CreateLesson | src/models/Lesson.ts:3-12 | The lesson is created exactly when userId and title are given, the language is "ar" or "en", the source type is "pdf", "image" or "text", and the texts cast. The stored lesson keeps the given fields, the fresh id and the creation time. |
| Models.CreateExercise | src/models/Exercise.ts:3-9 | The exercise is created exactly when lessonId, question and answer are given, the language is "ar" or "en", and the difficulty is "easy", "medium" or "hard". |
| Models.CastOptions | src/models/Quiz.ts:8 | The options are a list of strings, empty when unset. |
| Models.CastQuestion | src/models/Quiz.ts:6-10 | A question entry needs an object with a question text and a correct answer. Other fields are dropped. |
| Models.CreateQuiz | src/models/Quiz.ts:3-13 | The quiz is created exactly when lessonId is given, the language is "ar" or "en", and every question casts. The score starts at 0 and createdAt is the creation time. |
| Models.NewProgress | src/models/Progress.ts:3-9 | A new record is not completed, has score 0 and was accessed now. |
| LessonGenerate.LessonLanguage | src/app/api/lesson/generate/route.ts:25 | The language is the request's, else the user's, else "en". |
| LessonGenerate.ImageUrls | src/app/api/lesson/generate/route.ts:36 | The image URLs are read in order. The read throws when `images` is not an array or holds `null`. |
| LessonGenerate.Draft | src/app/api/lesson/generate/route.ts:29-37 | The record takes: userId from the session user, the title, the lesson language, the source type or "text", the content as raw text, the explanation text and the image URLs. |
| LessonGenerate.Save | src/app/api/lesson/generate/route.ts:29-42 | An explanation without an image list, or an invalid lesson, gives 500 and stores nothing. Otherwise exactly the new lesson is stored and returned with 200. |
| LessonGenerate.Post | src/app/api/lesson/generate/route.ts:8-44 | No session gives 401, and a missing content or title gives 400; in both cases nothing is asked and nothing is stored. A body that is not JSON or a session without a user gives 500. Otherwise the model is asked in the lesson language, and its explanation is saved. |
| LessonGenerate.SavedLessonFollowsRequest | src/app/api/lesson/generate/route.ts:29-37 | A saved lesson records the user, title, lesson language, source type or "text", content and time. |
| LessonGenerate.ModelAndLessonShareLanguage | src/app/api/lesson/generate/route.ts:24-37 | The language sent to the model is the language of the stored lesson. The lesson also records the user, title, source type, content and time. |
| LessonGenerate.CarriedUrls | src/app/api/lesson/generate/route.ts:36 | When every image of an explanation carries an image-service URL, every URL read from it is one. |
| LessonGenerate.InterpretedUrls | src/app/api/lesson/generate/route.ts:24-36 | Every URL read from an explanation's image list is an image-service URL. |
| LessonGenerate.SavedImagesAreUrls | src/app/api/lesson/generate/route.ts:29-37 | A lesson saved from image-service URLs stores only image-service URLs. |
| LessonGenerate.StoredImagesAreUrls | src/app/api/lesson/generate/route.ts:24-39 | Every image of a stored lesson is an image-service URL. |
| LessonGenerate.SavedApology | src/app/api/lesson/generate/route.ts:29-39 | Saving the apology for a valid request stores a lesson whose explanation is the apology and which has no images. |
| LessonGenerate.UnreachableModelStoresApology | src/app/api/lesson/generate/route.ts:24-39 | Without the model, a valid request still stores a lesson. Its explanation is the apology and it has no images. |
| LessonList.Owned | src/app/api/lesson/route.ts:15-17 | The selection holds exactly the lessons of the given user, or all lessons when the id is absent. |
| LessonList.Insert | src/app/api/lesson/route.ts:17 | Inserting into a newest-first list keeps it newest first and adds exactly the one lesson. |
| LessonList.SortNewestFirst | src/app/api/lesson/route.ts:17 | The result is a permutation of the input, ordered by creation time, newest first. |
| LessonList.Get | src/app/api/lesson/route.ts:7-23 | No session gives 401 and a session without a user gives 500. Otherwise the reply is the user's lessons, newest first. The store never changes. |
| LessonList.ListsExactlyOwnLessons | src/app/api/lesson/route.ts:15-19 | A lesson is listed exactly when it is stored and belongs to the signed-in user. |
| LessonAsk.Post | src/app/api/lesson/ask/route.ts:4-21 | No session is needed. A missing or empty question gives 400 without asking the model. Otherwise the explanation is returned unchanged with 200. |
| LessonAsk.AskedQuestionIsAnswered | src/app/api/lesson/ask/route.ts:12-17 | When the model is unreachable, a question still gets 200 with the apology in the requested language, or in English by default. |
| ExerciseGenerate.Iterated | src/app/api/exercise/generate/route.ts:17 | The loop visits an array's elements or a string's characters. Any other value throws. |
| ExerciseGenerate.Difficulty | src/app/api/exercise/generate/route.ts:21 | The difficulty is the item's when truthy, else "medium". |
| ExerciseGenerate.ExerciseFor | src/app/api/exercise/generate/route.ts:18-24 | A `null` item throws. Otherwise the exercise is created from the request's lesson and language, the item's difficulty and question, and the answer "AI generated". |
| ExerciseGenerate.CreateAll | src/app/api/exercise/generate/route.ts:17-26 | One creation per item, in order, each with the next id. The loop stops at the first failure, and the exercises created before it stay stored. |
| ExerciseGenerate.Save | src/app/api/exercise/generate/route.ts:15-34 | Falsy `exercises` give 201 with an empty list. A value the loop cannot iterate gives 500. Otherwise one exercise is created per item, and a failing item gives 500 with the earlier exercises kept. |
| ExerciseGenerate.Post | src/app/api/exercise/generate/route.ts:6-36 | A body that is not JSON gives 500 without asking the model. Otherwise the model is asked with the request's language and age as given, and its answer is saved. |
| ExerciseGenerate.BatchFollowsRequest | src/app/api/exercise/generate/route.ts:17-24 | Every exercise the loop creates is valid, with the requested lesson and language and the fixed answer. |
| ExerciseGenerate.SavedExercisesFollowRequest | src/app/api/exercise/generate/route.ts:15-32 | Every exercise in a 201 reply is stored and valid, with the requested lesson and language and the fixed answer. |
| ExerciseGenerate.CreatedExercisesFollowRequest | src/app/api/exercise/generate/route.ts:15-31 | Every returned exercise is stored and valid, with the requested lesson and language and the fixed answer. |
| ExerciseGenerate.MissingDifficultyIsMedium | src/app/api/exercise/generate/route.ts:21 | An item without a difficulty gets "medium". |
| ExerciseGenerate.NoExercisesCreatesNothing | src/app/api/exercise/generate/route.ts:15-32 | An answer without `exercises` gives 201 with an empty list and stores nothing. |
| ExerciseGenerate.UnreachableModelCreatesNothing | src/app/api/exercise/generate/route.ts:12-32 | The fallback has no exercises: the reply is 201 with an empty list and nothing is stored. |
| ExerciseGenerate.FailureKeepsEarlierExercises | src/app/api/exercise/generate/route.ts:17-35 | With a valid item followed by an item without a question, the first exercise is stored and the loop stops at the second. |
| QuizGenerate.QuestionsOf | src/app/api/quiz/generate/route.ts:17 | The questions are the answer's, or an empty list when falsy. |
| QuizGenerate.Save | src/app/api/quiz/generate/route.ts:14-25 | A single quiz is created from the request's lesson and language and the questions. An invalid quiz gives 500 and stores nothing; a valid one is stored and returned with 201. |
| QuizGenerate.Post | src/app/api/quiz/generate/route.ts:6-27 | A body that is not JSON gives 500 without asking the model. Otherwise the model is asked with the request's language and age as given, and its answer is saved. |
| QuizGenerate.SavedOneQuiz | src/app/api/quiz/generate/route.ts:14-25 | Saving stores one quiz exactly when the reply is 201, and nothing otherwise. The quiz is valid, belongs to the requested lesson and language, and has score 0. |
| QuizGenerate.OneQuizPerSuccess | src/app/api/quiz/generate/route.ts:14-23 | One quiz is stored exactly when the reply is 201. It is valid, belongs to the requested lesson and language, and has score 0. |
| QuizGenerate.NoQuestionsStoresEmptyQuiz | src/app/api/quiz/generate/route.ts:14-23 | An answer without `questions` stores a quiz with no questions for a valid lesson and language. |
| QuizGenerate.UnreachableModelStoresEmptyQuiz | src/app/api/quiz/generate/route.ts:12-23 | Without the model, a valid request stores a quiz with no questions. |
| QuizGenerate.CorrectAnswerIsFree | src/models/Quiz.ts:6-10 | Any two non-empty correct answers give the same cast outcome, question and options, whether or not they are among the options. |
| QuizGenerate.CorrectAnswerNotChecked | src/models/Quiz.ts:6-10 | A question whose correct answer is not among its options is accepted as it is. |
| ProgressRoute.OfUser | src/app/api/progress/route.ts:8-12 | The selection holds exactly the records of the queried user. |
| ProgressRoute.Get | src/app/api/progress/route.ts:5-18 | GET returns exactly the queried user's records and changes nothing. |
| ProgressRoute.FirstMatch | src/app/api/progress/route.ts:26-27 | The upsert targets the first record matching the key, or none. |
| ProgressRoute.Apply | src/app/api/progress/route.ts:28 | The update sets the given completion and score, and the access time to now. The key and id are unchanged. |
| ProgressRoute.Post | src/app/api/progress/route.ts:20-39 | POST updates the first match in place, or else inserts a record keyed by the request. The reply carries the record after the update. |
| ProgressRoute.PostStoresRequestedState | src/app/api/progress/route.ts:26-35 | The returned record is stored, matches the key, has the requested completion and score, and was accessed now. |
| ProgressRoute.PostTouchesOneRecord | src/app/api/progress/route.ts:26-30 | An existing match is updated without adding a record. All other records and collections are unchanged. |
| ProgressRoute.RepeatedPostDoesNotDuplicate | src/app/api/progress/route.ts:26-30 | Posting the same key twice does not add a second record. |
| ProgressRoute.PostedRecordIsListed | src/app/api/progress/route.ts:5-30 | A record posted for a user appears in that user's GET. |

## Left out

- The outbound calls to the text and image services (`src/lib/ai.ts:33-44`, `50`). The reply is an input: a network failure, or an OK flag and a body. The model name and JSON-mode flag of the request are not represented.
- `JSON.parse` is a function parameter, not a grammar.
- JSON numbers are integers. Floating point and its text form are not modelled.
- Strings are sequences of Unicode scalar values. A lone surrogate, and the URIError it makes `encodeURIComponent` throw, cannot occur.
- Logging.
- bcrypt is replaced by `hash` and `compare` parameters. The salt rounds are not modelled. `compare(p, hash(p))` is a precondition of `Register.RegisterThenSignIn`.
- Session and token issuing by next-auth, the signing secret and the sign-in page setting (`src/lib/auth.ts:57-63`). `getServerSession` becomes a session parameter.
- The `name`, `email` and `picture` claims that next-auth itself writes.
- Clock reads are a `now` parameter. Record ids come from a counter written in decimal, not from ObjectId generation.
- Mongoose details:
  - The ObjectId format check on `userId` and `lessonId`; ids are opaque strings.
  - `connectDB`.
  - `populate('lessonId')` in the progress GET.
  - Error message texts; a failure is represented by its cause.
  - The string cast of objects that have an `_id` or their own `toString`.
  - `null` entries in string lists.
- The User schema is not part of this model. Creating a user always succeeds.
- Request body fields are typed as string, number or boolean. Other JSON types in request fields are not modelled.
- In the translation walk, stepping below a text (indexing a string) and `Object.prototype` members are treated as missing keys.
- A saved language other than "en" or "ar" makes `t` throw; the model represents this as `None`, not as a rendered error.
- Persistence to local storage is the `saved` field of the state. React rendering, the font class and `useLanguage` outside a provider are not modelled.
- LessonList.SortNewestFirst: lessons with equal creation times are kept in stored order. The database leaves that order unspecified, and the contract states only order and permutation.
- The PDF-parsing route, the lesson-explain route, the per-id lesson/exercise/quiz routes and all pages and components are not part of this model.
- Ai.GenerateEducationalImage: its contract only names the shared URL builder. Its properties are stated on Ai.ImageUrl and Ai.EducationalImageMatchesInjection.
