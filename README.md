# Trump-inspired chatbot: the per-turn logic, modelled in Dafny

The chatbot is a single Streamlit script, `app.py`. It does four things around its UI and its OpenAI call:

- It cleans an API key (`_clean_key`) and refuses to go on unless the key starts with `sk-`.
- It classifies each user message into one of three response modes with whole-word keyword patterns (`detect_mode`). Each mode has its own instruction block (`mode_instructions`).
- It builds an "avoid-hint" from the slogan-like phrases already used in the session (`build_avoid_hint`).
- It runs each turn as a small state machine over the session's transcript and its ledger of used phrases. The user message is appended. A payload of five system messages and the recent transcript is composed. The reply is appended. The watched phrases found in the reply join the ledger.

The model has seven modules:

- `Wrappers` (`wrappers.dfy`): the `Option` type, for Python's `str | None`.
- `Text` (`text.dfy`): Python's whitespace, ASCII lower-casing, the word characters of `\b`, and substring search.
- `Ordering` (`ordering.dfy`): Python's ordering of strings and `sorted` on a set of strings.
- `ApiKey` (`api_key.dfy`): `_clean_key` and the acceptance test.
- `Intent` (`intent.dfy`): the three keyword alternations, `detect_mode` and `mode_instructions`.
- `Prompt` (`prompt.dfy`): the fixed system texts, `build_avoid_hint` and the payload.
- `Chat` (`chat.dfy`): the `Session` class, whose fields are the transcript and the ledger. `Turn` is the turn step. `NotePhrases` is its loop over the watch list.

The pure parts of the source are functions. The turn step appends to the session state in place and grows the ledger in a `for` loop, so it is a class with methods. The completion reply is an input of `Turn`.

## Model

| member | source | states |
|---|---|---|
| ApiKey.Strip | app.py:26 | `str.strip()` leaves neither leading nor trailing whitespace, with whitespace as Python's `isspace` |
| Text.IsSpace | app.py:26 | the whitespace of `str.strip` is Python's `isspace` set: it takes in space, tab, `\n`, `\r`, `\v`, `\f`, the separators U+001C to U+001F, U+0085, the no-break space and the line and paragraph separators U+2028 and U+2029; it takes in no other printable ASCII character and never a word character |
| ApiKey.StripDecomposes | app.py:26 | what `strip` removes is whitespace, and only at the two ends: the result occurs in the input between two all-whitespace pieces |
| ApiKey.StripPadded | app.py:26 | stripping a whitespace-free core padded on both sides with any whitespace gives back exactly the core |
| ApiKey.QuotePair | app.py:27 | the test holds exactly when the value starts and ends with `"`, or starts and ends with `'` |
| ApiKey.Inner | app.py:28 | `k[1:-1]` is empty for values shorter than two characters; otherwise it is what lies between the first and the last character |
| ApiKey.CleanKey | app.py:23-29 | `_clean_key` gives None exactly when the input is None or empty; any other result has no whitespace at either end |
| ApiKey.CleanUnquoted | app.py:26-29 | a value without a matching quote pair comes back with its padding stripped and nothing else changed |
| ApiKey.CleanPaddedQuotePair | app.py:26-28 | a padded value whose ends are the same quote character cleans to its inside, stripped |
| ApiKey.CleanQuoted | app.py:26-28 | one pair of quotes is removed, together with the whitespace outside and inside it, and the key within is returned as is |
| ApiKey.MismatchedQuotesKept | app.py:27-28 | a `"` at one end and a `'` at the other are both kept |
| ApiKey.CleanLoneQuote | app.py:27-28 | a lone quote, however padded, cleans to the empty string, not to None |
| ApiKey.OnePairOnly | app.py:27-28 | only the outer pair is removed: a doubly quoted key keeps its inner quotes |
| ApiKey.WhitespaceOnlyRefused | app.py:24-29 | a whitespace-only value cleans to `""` rather than None, and the test at l.48 refuses it |
| ApiKey.Accepted | app.py:48 | the app goes on exactly when the key is present and its first three characters are `s`, `k`, `-` |
| ApiKey.PaddedKeyAccepted | app.py:23-48 | a whitespace-free key starting with `sk-`, padded with any whitespace, cleans to itself and is accepted |
| ApiKey.QuotedKeyAccepted | app.py:23-48 | the same key inside one pair of quotes, with any whitespace outside and inside the quotes, cleans to itself and is accepted |
| Ordering.LessIrreflexive | app.py:128 | no string is smaller than itself under Python's `<` on `str` |
| Ordering.LessAsymmetric | app.py:128 | two strings are never smaller than each other |
| Ordering.LessTransitive | app.py:128 | Python's `<` on `str` is transitive |
| Ordering.LessTotal | app.py:128 | of two distinct strings, one is smaller |
| Ordering.CommonPrefix | app.py:128 | the length of the longest common prefix of two strings: they agree up to it and differ right after it when both go on |
| Ordering.Less | app.py:128 | `a < b` exactly when `a` is a proper prefix of `b`, or the two first differ at a character where `a` has the smaller code point |
| Ordering.Least | app.py:128 | a non-empty set of strings has a least element, which `sorted` puts first |
| Ordering.Sorted | app.py:128 | `sorted(list(s))` has exactly the elements of `s`, each once, in strictly ascending order |
| Text.Contains | app.py:175 | the substring test holds exactly when the needle occurs somewhere in the haystack |
| Text.Join | app.py:129 | `"; ".join(list)` of no parts is empty and of one part is that part; otherwise it starts with the first part and ends with the last. With Text.JoinSnoc this fixes the join of every list |
| Text.JoinSnoc | app.py:129 | joining a list with one more part appends the separator and that part, so the join is the parts in order with the separator between neighbours |
| Text.JoinHoldsParts | app.py:129 | every part of a list occurs in the list joined with any separator |
| Text.Lower | app.py:86 | lower-casing keeps the length and maps each character by itself, ASCII capitals to small letters and everything else unchanged |
| Text.LowerIdempotent | app.py:86 | lower-casing lower-cased text changes nothing |
| Intent.SearchFrom | app.py:81-83 | scanning from position `i` finds `\bkw\b` exactly when a whole-word occurrence starts at `i` or later |
| Intent.Boundary | app.py:81-83 | `\b` holds only at positions within the text; at the start it holds exactly when the text begins with a word character, at the end exactly when it ends with one |
| Intent.WholeWordAt | app.py:81-83 | a `\bkw\b` match is an occurrence of the keyword; for a keyword that begins and ends with word characters it is exactly an occurrence with no word character right before or right after it |
| Intent.WordMatch | app.py:81-83 | a match of the alternation implies that one of its keywords occurs in the text |
| Intent.SearchAny | app.py:81-83 | `re.search` on an alternation succeeds exactly when one of its keywords occurs as a whole word |
| Intent.DetectMode | app.py:85-94 | the mode is always facts, advice or motivation. It is facts exactly when a FACT keyword matches. It is motivation exactly when no FACT or PLAN keyword matches and a MOTIVATE keyword does. Otherwise it is advice |
| Intent.DetectModeIgnoresCase | app.py:86 | the mode of a message and of its lower-cased form are the same |
| Intent.FactWins | app.py:87-88 | a whole-word FACT keyword gives facts, whatever other keywords are present |
| Intent.PlanWithoutFact | app.py:89-90 | with no FACT keyword, a PLAN keyword gives advice, whatever MOTIVATE keywords are present |
| Intent.NeitherFactNorMotivation | app.py:85-94 | with no FACT and no MOTIVATE keyword the mode is advice, by the PLAN rule or by the default |
| Intent.WhatQuestionIsFacts | app.py:81-88 | a message whose first five characters, lower-cased, are "what " asks for facts, whatever case it was typed in |
| Intent.EmbeddedKeywordIgnored | app.py:81-94 | "whatever" contains "what" at its start, yet the message gets advice: "what" inside a longer word is no whole-word FACT match |
| Intent.GreetingIsAdvice | app.py:85-94 | "good morning" gets advice |
| Intent.PlanBeatsMotivation | app.py:89-92 | "Nervous plan" matches a MOTIVATE keyword, yet the PLAN keyword takes priority and the mode is advice |
| Intent.SalesQuestionIsAdvice | app.py:81-90 | "how do i grow my sales" matches no FACT keyword, not even "how much", and "grow" gives advice |
| Intent.ModeInstructions | app.py:96-115 | `mode_instructions` is total, and its result is always one of the three fixed blocks |
| Intent.ModeInstructionsHeader | app.py:96-115 | the block opens with "Mode: FACTS." exactly for "facts" and with "Mode: ADVICE." exactly for "advice". Every other string gets "Mode: MOTIVATION." |
| Prompt.HintList | app.py:128 | `sorted(...)[:12]` lists the min(12, n) smallest used phrases in ascending order, with every unlisted phrase above all listed ones |
| Prompt.HintListUnique | app.py:128 | only one list has those properties, so the hint is determined by the used set |
| Prompt.AvoidHint | app.py:125-129 | the hint is `""` exactly when nothing is used. Otherwise it is the fixed prefix followed by the hint list joined with "; " |
| Prompt.AvoidHintSingle | app.py:125-129 | one used phrase gives the prefix followed by that phrase |
| Prompt.HintListsAll | app.py:128 | with at most 12 used phrases, every one of them is listed |
| Prompt.HintNamesAll | app.py:125-129 | with at most 12 used phrases, each of them occurs in the hint text |
| Prompt.Recent | app.py:147 | `messages[-6:]` has min(6, n) entries, the last ones of the transcript in their order |
| Prompt.ComposePayload | app.py:158-165 | the payload holds, in order, the style card, the guardrails, the avoid note, the mode block and the avoid-hint (even when empty), then the last min(6, n) transcript entries in their order |
| Prompt.PayloadEndsWithNewest | app.py:140-147 | the payload ends with the user message appended just before it was composed |
| Chat.WatchListLower | app.py:174-176 | the watch list is already lower-case, so the ledger holds the phrases exactly as listed |
| Chat.Found | app.py:174-176 | the phrases found are exactly the lower-cased listed phrases that occur in the lower-cased reply: each found phrase is the lower-cased form of a listed one and occurs there, and every listed phrase whose lower-cased form occurs there is found |
| Chat.PhrasesIn | app.py:174-176 | a reply adds exactly the watched phrases that occur in it, ignoring case, and nothing outside the watch list |
| Chat.WellFormedStep | app.py:140-171 | appending a user message and then a reply keeps the transcript alternating after the seed, one turn longer |
| Chat.LedgerFullyListed | app.py:128-176 | the ledger never holds more than six phrases, so the cap of 12 in the hint is never reached and every used phrase is listed |
| Chat.HintNamesEveryUsedPhrase | app.py:125-176 | every phrase in the ledger is named in the next turn's avoid-hint |
| Chat.TremendousOnly | app.py:174-176 | a reply "tremendous" adds that phrase and no other watched phrase |
| Chat.GrowthConversation | app.py:145-176 | on a fresh session, "how do i grow my sales" is answered in advice mode, and when the reply is exactly "tremendous" the ledger it fills from empty gives the hint prefix followed by "tremendous" |
| Chat.Session.constructor | app.py:118-123 | a new session holds only the greeting and an empty ledger |
| Chat.Session.Turn | app.py:138-171 | an empty message changes nothing. Otherwise the transcript grows by the user message and then the reply, and stays 1 + 2k long after k turns. The payload is composed from the mode of the message, the hint of the ledger before the turn and the transcript including the new message. The ledger grows by the phrases of the reply and stays inside the watch list |
| Chat.Session.NotePhrases | app.py:174-176 | the loop over the watch list adds exactly the watched phrases found in the reply, lower-cased, and nothing else |

## Left out

- The Streamlit page: layout, image, title, history rendering, the chat input widget and markdown output (app.py:10-20, 132-134, 137, 141-142, 150, 168). This is UI.
- The credential chain (app.py:31-46): secrets, environment variables, the dotenv file, the password form and the write to `os.environ`. This is I/O. Only `_clean_key` and the acceptance test are modelled. `st.stop()` is the acceptance test answering false.
- The OpenAI client and the completion call (app.py:59, 151-167), with its sampling parameters `temperature`, `top_p` and the two penalties (app.py:153-156). This is a network call into a foreign library. The reply text is an input of `Chat.Session.Turn`, and a reply whose content is None is not modelled.
- Text.Lower: only ASCII letters are lower-cased. Python's `str.lower` covers all of Unicode, for example the Kelvin sign lowering to `k`.
- Intent.DetectMode: the word characters of `\b` are ASCII only (letters, digits, `_`). Python's `re` on `str` also counts non-ASCII letters and digits as word characters.
- Intent.WordMatch: its own contract states only that a match implies an occurrence of some keyword. The exact condition is its definition, which Intent.SearchAny is proved to decide.
- Ordering.Less: compares code points. This is Python's order for every string a `char` can hold; lone surrogates, which Python's `str` allows, are not represented.
- Chat.Session.Turn: `st.chat_input` returns None when nothing was submitted. Both None and `""` are falsy at l.138, so both are modelled as the empty string. The ghost `turns` counter exists only to state the transcript length.
- Chat.Session.Turn: a completion call that raises (network failure, authentication, rate limit) is not modelled. In the program the user message appended at l.140 then stays in the transcript without a reply, so alternation and the length 1 + 2k no longer hold; `Valid()` describes sessions in which every completion call has returned.
- Chat.Session.constructor: Streamlit re-runs the script on every interaction, and l.118-123 initialise the state only when it is missing. The model starts a session once and lets `Turn` act on the same object.
