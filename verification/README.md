# Storigrad server core in Dafny

This project models the server of Storigrad, an interactive-story service. Players write turns, a language-model storyteller continues the story, and every exchange is kept in a turn log. The model covers seven parts of the server:

- **Intent router** (`Modules`, `Service`). Four keyword modules (greeting, lore, action, fallback) score a message. Each module accepts when its score is at least the threshold 0.5. `Pipeline.Run` consults the modules in order and records a trace. It stops at the first accepting module that is not the fallback. Otherwise it replies with the fallback's output only. `PipelineRegistry` is the lazily created process-wide pipeline.
- **Story and turn tables** (`StoryCrud`). `StoryTable` is a class over the `stories` and `story_turns` rows. It creates a story, looks one up for its owner, and lists an owner's stories, most recently updated first. `add_turn` appends a turn numbered max+1. `get_turns` returns the latest turns, oldest first. `Valid()` keeps row ids counting from 1 and each story's turn indexes counting 1..n.
- **Turn advancement** (`Storyteller`). The checks run in order: owner lookup, prompt id, API key, project. Then the step parses the player's name (em-dash first, then hyphen), builds the agent's variables and input text, and takes the reply from either response shape. On success it appends one turn and stores the response id in the story's config. On a failed call it returns the sentinel and writes nothing.
- **Field prompt builder** (`FieldAssistant`). It normalises the field type and selects a template, falling back to the description template. It fills the template with a model of `str.format`: `{{`/`}}` escapes and the single `{user_input}` field. The configuration text is appended to the system prompt, giving two chat messages.
- **Image upload** (`Storage`). Settings come from the environment. The storage object refuses construction while a credential is missing. An upload is checked in order: forbidden content type, then size cap, then extension allow-list. The object key and public URL are then built.
- **Accounts** (`Api`). `register` lower-cases the email and refuses one already stored. `login` compares the stored hash with the hash of the given password and issues a token.
- Helpers: `Text` holds the Python string operations the core uses (`lower`, `strip`, substring test, `split`, `join`). `JsonDoc` holds the JSON values stored in a story's config. `Wrappers` holds `Option` and `Result`.

The external services are inputs to the model, not calls:

- the storyteller agent's response or failure;
- the object store's `put_object` outcome;
- the upload's uuid;
- the clock (`now`);
- the password hash and the token encoder.

The model follows `app/story.py`, `app/main.py` and `app/storyteller_mini.py` as written:

- `get_story` returns only a story the caller owns. A template (ownerless story) is never returned and is not copied on read.
- The turn log is one row per turn with `idx`, `user_text` and `model_text`, as `app/story.py` uses it. The `StoryTurn` class in `app/models.py` declares a JSON `turns` column instead.
- `login` does not upgrade legacy password hashes.
- `create_story` does not maintain a user's story count.
- A provider response that carries no text is not a failure. The step stores and returns "".

## Model

| member | source | states |
|---|---|---|
| `Modules.Module.Score` | app/nn/modules.py:10-43 | the score lies in [0,1] and is positive exactly when the module's keyword test holds on the lower-cased message; greeting and lore score 1.0 or 0.0, action 0.8 or 0.0, the fallback always 1.0 |
| `Modules.Module.Run` | app/nn/modules.py:14-46 | each module replies with a fixed non-empty text |
| `Modules.RunIgnoresRequest` | app/nn/modules.py:14-46 | a module's reply does not depend on the request |
| `Modules.Module.Decide` | app/nn/base.py:20-22 | accepts iff score >= thr (default 0.5) and returns the score unchanged |
| `Modules.AcceptsIffTriggered` | app/nn/modules.py:10-43 | at the default threshold, a module accepts exactly when its keyword test holds |
| `Modules.FallbackAlwaysAccepts` | app/nn/modules.py:42-43 | the fallback accepts every request, with score 1.0 |
| `Modules.DefaultModules` | app/nn/modules.py:49-50 | four modules, the names distinct, only the last named "fallback" |
| `Service.Evaluate` | app/service.py:14-16 | a trace item records the module's name, its accept flag and score, and its output only if it accepted ("" otherwise) |
| `Service.TraceOf` | app/service.py:13-16 | one trace entry per module consulted |
| `Service.TraceOfEntries` | app/service.py:13-16 | entry j of the trace carries module j's name, score and keyword decision, in the modules' order |
| `Service.TraceOfSnoc` | app/service.py:13-16 | consulting one more module appends exactly its entry to the trace |
| `Service.FirstRouted` | app/service.py:13-19 | the position of the first accepting non-fallback module: none before it routes, and it does (or the length when none does) |
| `Service.FallbackOutputs` | app/service.py:22 | never more outputs than trace items |
| `Service.FallbackOutputsMembers` | app/service.py:22 | a string is among the outputs iff some trace item named "fallback" carries it |
| `Service.NonEmpty` | app/service.py:23 | `filter(None, ...)`: every kept output is non-empty and every non-empty input is kept |
| `Service.NonEmptyKeepsOnly` | app/service.py:23 | the filter adds nothing: each kept output is an input, and there are no more of them than inputs |
| `Service.NonEmptyAppend` | app/service.py:23 | the filter keeps the order: filtering a concatenation concatenates the filtered parts |
| `Service.NonEmptyKeepsAll` | app/service.py:23 | outputs that are all non-empty pass through unchanged |
| `Service.Pipeline.constructor` | app/service.py:6-8 | the pipeline holds the given modules |
| `Service.Pipeline.Run` | app/service.py:10-24 | the trace is the evaluation of a prefix of the modules, in order, ending at the first routing module (or covering all); a routed reply is exactly that module's output; otherwise the reply is the "\n"-join of the non-empty fallback outputs; `modules` is not changed |
| `Service.PipelineRegistry.GetPipeline` | app/service.py:26-32 | the first call creates a pipeline over the default modules; later calls return that same object |
| `Service.RoutesIffTriggered` | app/service.py:17 | a module ends the routing iff it is not the fallback and its keyword test holds |
| `Service.DefaultRouting` | app/service.py:13-19 | with the default modules the routing position is 0, 1, 2 by the first keyword test that holds, else 4 |
| `Service.DefaultFallbackOutputs` | app/service.py:20-22 | with the default modules the fallback outputs are exactly [fallback text] |
| `Service.DefaultFallbackReply` | app/service.py:20-23 | when no keyword module accepts, the trace covers all four modules and the reply is exactly the fallback text |
| `Service.FirstMatchNotHighestScore` | app/service.py:13-19 | an action-only message routes to the action module (0.8) although the fallback would score 1.0 |
| `Service.GreetingBeatsAction` | app/service.py:13-19 | "Привет, хочу идти" triggers both greeting and action and is routed to the greeting, the trace stopping after it |
| `StoryCrud.FindOwned` | app/story.py:30-39 | a story is found only if both its id and its owner match; None means no such story exists |
| `StoryCrud.StoryTable.GetStory` | app/story.py:30-39 | returns a story only if id and owner match (a template never matches); None iff there is none |
| `StoryCrud.StoryTable.CreateStory` | app/story.py:12-27 | inserts exactly one story with the next id, the given owner, title and config, and equal created/updated times; a missing title violates NOT NULL and inserts nothing |
| `StoryCrud.OwnedBy` | app/story.py:46 | exactly the stories with that owner |
| `StoryCrud.SortDesc` | app/story.py:47 | `ORDER BY ... DESC`: a permutation whose keys never increase |
| `StoryCrud.StoryTable.ListStoriesForUser` | app/story.py:42-49 | exactly the owner's stories (as a multiset), ordered by non-increasing `updated_at` |
| `StoryCrud.TurnsOfMembers` | app/story.py:98-99 | the story's turns are exactly the rows carrying its id |
| `StoryCrud.Take` | app/story.py:101 | `.limit(n)`: the first min(n, len) rows |
| `StoryCrud.ReverseAt` | app/story.py:102 | `[::-1]`: position i of the reversal holds element len-1-i |
| `StoryCrud.MaxIdx` | app/story.py:66-70 | `max(idx)`: None for no rows, else a stored idx that no row exceeds |
| `StoryCrud.MaxIdxOfCounted` | app/story.py:66-71 | for turns numbered 1..n the maximum is n, so the next index is n+1 |
| `StoryCrud.TurnsOfAppend` | app/story.py:73-79 | appending a row extends exactly its own story's turns |
| `StoryCrud.AppendKeepsCounted` | app/story.py:66-79 | appending a turn numbered count+1 keeps every story's indexes counting 1..n in insertion order |
| `StoryCrud.Touch` | app/story.py:82-84 | the story with that id gets `updated_at = now`; every other story is unchanged |
| `StoryCrud.StoryTable.AddTurn` | app/story.py:54-88 | appends one turn with the given story, texts and index max+1 (1 first); other stories' turns are unchanged; the story's `updated_at` is refreshed; indexes stay 1..n per story |
| `StoryCrud.LatestTurns` | app/story.py:97-103 | `ORDER BY idx DESC LIMIT n`, reversed: min(limit, n) turns |
| `StoryCrud.StoryTable.GetTurns` | app/story.py:91-103 | returns min(limit, n) of the story's turns (default limit 50) and changes nothing; on a valid table they are exactly its last min(limit, n) turns, oldest first |
| `StoryCrud.SortDescOfIncreasing` | app/story.py:100 | sorting by descending idx a log whose idx increases reverses it |
| `StoryCrud.LastOfReversal` | app/story.py:101-102 | taking the first m of the reversal and reversing back gives the last m in order |
| `StoryCrud.LatestTurnsAreTail` | app/story.py:97-103 | when the story's turns are numbered 1..n, `get_turns` returns exactly its last min(limit, n) turns, oldest first |
| `StoryCrud.TurnsOfAppendAll` | app/story.py:73-79 | appending N rows of one story extends its turns by exactly those rows, in order |
| `StoryCrud.ReadBackAll` | app/story.py:66-103 | after N turns are added to an empty story, reading with limit >= N returns all N in insertion order |
| `Storyteller.ConfigWith` | app/storyteller_mini.py:22-23 | the new config maps `key` to `value` and keeps every other key of the old config (a missing config counts as {}) |
| `Storyteller.WithConfigValue` | app/storyteller_mini.py:20-26 | only the story with that id changes: its config gets the key, its `updated_at` is refreshed, its id is kept |
| `Storyteller.SetStoryConfigValue` | app/storyteller_mini.py:20-26 | writes that config change to the table and keeps the table valid; the turns are untouched |
| `Storyteller.ParseName` | app/storyteller_mini.py:79-85 | the stripped text before the first em-dash; without one, the stripped text before the first hyphen; without either, the whole stripped text; the name is stripped and holds no em-dash (nor a hyphen when the text has no em-dash) |
| `Storyteller.ParseNameEmDash` | app/storyteller_mini.py:80-81 | "Name — description" gives Name, even when Name contains a hyphen |
| `Storyteller.ParseNameHyphen` | app/storyteller_mini.py:82-83 | without an em-dash, "Name - description" gives Name |
| `Storyteller.ResolveUserName` | app/storyteller_mini.py:72-85 | parses the `"user"` string of an object or the string itself; an object without a `"user"` string, and any other value, gives "" |
| `Storyteller.BuildInput` | app/storyteller_mini.py:97 | the input keeps the whole `MODE: <mode>\nUSER_TURN:` head, is a prefix of the unstripped text, everything dropped after it is whitespace, and it has no surrounding whitespace |
| `Storyteller.BuildInputTrailingSpace` | app/storyteller_mini.py:97 | whitespace after a stripped non-empty player text is dropped and the text itself is sent as written |
| `Storyteller.BuildInputKeepsTurn` | app/storyteller_mini.py:97 | a non-empty player text without surrounding whitespace is sent exactly as written |
| `Storyteller.BuildInputBlankTurn` | app/storyteller_mini.py:97 | a blank player text leaves the input ending at `USER_TURN:` |
| `Storyteller.ExtractReply` | app/storyteller_mini.py:110-115 | a non-empty `output_text`, else the nested text, else "" |
| `Storyteller.PromptId` | app/storyteller_mini.py:59 | the config's prompt id when truthy; otherwise the environment variable's value (null when unset), truthy iff that variable is set |
| `Storyteller.EffectiveConfig` | app/storyteller_mini.py:55 | `story.config or {}` |
| `Storyteller.BuildRequest` | app/storyteller_mini.py:54-106 | the request carries the given prompt id, the built input, the mode, the NPC, story and player descriptions from the config (defaults `[]`, `""`, `{}`) and the user name resolved from that player description; `previous_response_id` is sent iff the config's value is truthy, and then it is that value |
| `Storyteller.GenerateStoryStep` | app/storyteller_mini.py:29-133 | `mode` defaults to "dialogue"; checks owner, then prompt id, API key, project, each before anything is sent or written; a failed call returns the sentinel and leaves the tables unchanged; a successful one appends exactly one turn (user text, reply), returns the stored reply, and stores a non-empty response id in the config |
| `FieldAssistant.Format` | app/field_assistant.py:86 | `str.format` with the single `user_input` field: brace-free text formats to itself |
| `FieldAssistant.FormatPlain` | app/field_assistant.py:86 | `format` copies brace-free text verbatim |
| `FieldAssistant.FormatField` | app/field_assistant.py:86 | `{user_input}` is replaced by the argument, whatever braces the argument holds |
| `FieldAssistant.FormatEscaped` | app/field_assistant.py:86 | a `{{w}}` marker comes out as `{w}` |
| `FieldAssistant.TwoMarkersRender` | app/field_assistant.py:23-27 | text with two doubled-brace markers between brace-free pieces formats with each marker collapsed |
| `FieldAssistant.InstructionRenders` | app/field_assistant.py:23-27 | the placeholder instruction formats to its rendered form |
| `FieldAssistant.RenderedInstructionSingleBraces` | app/field_assistant.py:23-27 | the rendered instruction mentions `{user}` and contains no `{{` anywhere |
| `FieldAssistant.TemplateRenders` | app/field_assistant.py:58-86 | every template formats without error to its lead, the argument verbatim, then the rendered instruction |
| `FieldAssistant.InternalFieldType` | app/field_assistant.py:38-46 | the four client field names map to description/player/npc/start; any other name passes through |
| `FieldAssistant.TemplateFor` | app/field_assistant.py:85 | a known internal type selects its template; any other falls back to the description template |
| `FieldAssistant.ConfigText` | app/field_assistant.py:49-56 | "" iff there is no config; otherwise the header followed by the JSON text, or by the `str` form when serialisation fails |
| `FieldAssistant.BuildMessages` | app/field_assistant.py:29-93 | the field type defaults to "description" and the config to none; exactly two messages: system = system prompt + config text, then user = the chosen template's lead + the stripped request + the rendered instruction |
| `Storage.PublicCdnUrl` | app/storage.py:14-16 | the override when set, else endpoint/bucket, else the endpoint |
| `Storage.MaxImageSize` | app/storage.py:19 | the configured cap, 5 MiB (5242880 bytes) by default |
| `Storage.MissingSetting` | app/storage.py:26-31 | none missing iff bucket, access key and secret key are all set; otherwise the first missing one in that order |
| `Storage.OpenImageStorage` | app/storage.py:25-39 | construction fails with the first missing credential; otherwise a new storage object carries the settings |
| `Storage.ImageStorage.constructor` | app/storage.py:25-39 | the object keeps the bucket, credentials, public URL and cap it was built with |
| `Storage.ImageExtension` | app/storage.py:52-54 | the stripped, lower-cased last `/` segment, except that `jpg` (in any case or padding) becomes `jpeg`; never `jpg` |
| `Storage.JpgBecomesJpeg` | app/storage.py:53-54 | `image/jpg` yields the extension `jpeg` |
| `Storage.CheckUpload` | app/storage.py:44-57 | `image/svg+xml` is refused as unsupported first, then a payload over the cap as too large, then an extension outside the allow-list as unsupported; accepted iff none applies, with extension png, jpeg or webp |
| `Storage.NegativeCapRefusesAll` | app/storage.py:19-48 | a negative `MAX_IMAGE_SIZE_BYTES` refuses every non-svg upload as too large, even an empty one |
| `Storage.ObjectKey` | app/storage.py:59 | the key is `images/`, the uuid, a dot and the extension |
| `Storage.CapIsInclusive` | app/storage.py:47-48 | a payload of exactly the cap is accepted, one byte more is refused |
| `Storage.SvgRejectedBeforeSize` | app/storage.py:44-48 | svg is refused whatever the payload size |
| `Storage.JpgAccepted` | app/storage.py:52-57 | an `image/jpg` upload within the cap is accepted as `jpeg` |
| `Storage.ImageStorage.UploadImage` | app/storage.py:41-72 | a refused upload sends nothing; otherwise it puts `images/<uuid>.<ext>` publicly readable and returns `PUBLIC_CDN_URL/<key>`, or the store's client error |
| `Api.FindByEmail` | app/main.py:46 | finds a user with exactly that email; None iff there is none |
| `Api.Authenticate` | app/main.py:67-74 | a login names a stored user with the lower-cased email whose hash equals hash(password); with no such email it fails |
| `Api.AuthenticateFinds` | app/main.py:67-74 | with distinct emails, a stored user with the lower-cased login email and a matching hash is the user returned |
| `Api.WrongPasswordRefused` | app/main.py:70-74 | with distinct emails, a stored user whose hash differs is refused |
| `Api.UserTable.Register` | app/main.py:42-62 | lower-cases the email; refuses (400) one already stored; otherwise appends exactly one user (lower-cased email, username, hash(password), plan Free, 0 stories) and returns an empty token; emails stay lower-case and pairwise distinct |
| `Api.UserTable.Login` | app/main.py:65-77 | fails with 401 unless a stored user has the lower-cased email and hash(password); on success returns `create_jwt` of that user's id; changes nothing |
| `Api.LoginAfterRegister` | app/main.py:44-70 | after a successful register(e, u, p), login(E, p) succeeds for every E that lower-cases to lower(e) |

## Left out

- Python's `str.lower` is modelled for ASCII, Latin-1 and basic Cyrillic capitals only. Other characters are left unchanged.
- The lore module's regular expression is modelled as the plain substring test it amounts to.
- The calls to the language models, the S3 client and `put_object`, and `uuid4` are left out. They are foreign I/O and randomness. Their results (agent response or failure, put outcome, uuid) are parameters.
- `generate_field_value` returns the completion's text. The model stops at the two messages it sends.
- `json.dumps` and `str` renderings are not modelled. The agent variables keep the config's JSON values. The field assistant's config text is an input (the JSON text, or the `str` form when serialisation fails).
- `Storyteller.ProviderOutcome`: the nested `output[0].content[0].text` is a string or missing. A present but non-string value is not modelled.
- `MAX_IMAGE_SIZE_BYTES` is taken already parsed, negative values included. A non-numeric value, which makes `int()` raise at import, is not modelled.
- Timestamps (`created_at`, `updated_at`, `func.now()`) are an integer `now` parameter.
- Sessions, commits and refreshes are not modelled, and nor are foreign keys. `add_turn` for a story id with no story row is not refused. Two concurrent `add_turn` calls that race on max+1 are not modelled.
- `StoryCrud.StoryTable.GetTurns`: `limit` is a natural number. A negative limit's meaning depends on the database.
- `Service.FallbackOutputs`: its own contract only bounds the length; `Service.FallbackOutputsMembers` states which strings occur, not their order. Its exact value for the default modules is stated by `Service.DefaultFallbackOutputs`.
- `FieldAssistant.Format` knows only the `{user_input}` field. Any other replacement field, conversion or format spec gives None. The templates use nothing else.
- A story's config is a JSON object. A non-object value stored in the column is not modelled.
- Framework behaviour is not modelled: HTTP transport, pydantic's `EmailStr` validation, bearer-token checks, the other endpoints of `app/main.py`, and `app/auth.py` (`hash_password` and `create_jwt` are opaque functions).
- The storyteller's `print` of a provider error is left out.
