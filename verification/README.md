# smallfeishu in Dafny

A verified model of the core of smallfeishu, a command-line notifier that posts messages to Feishu (Lark) group-bot webhooks. The model covers three parts:

- **Configuration** (`config.dfy`, module `FeishuConfig`):
  - where the configuration file is looked for;
  - which section of the parsed TOML document is used;
  - the defaults for missing keys;
  - the validation of the enabled flag and of every webhook URL;
  - the `Config` object and its read-only views;
  - the masking of webhook URLs for display.
- **Notifier** (`notification.dfy`, module `Notification`):
  - the normalisation of message text;
  - the JSON payloads;
  - the classification of one webhook's reply;
  - the delivery of one payload to every webhook, folded into one verdict.
- **Command line** (`cli.dfy`, module `Cli`): the guard sequence of the `send` and `test` handlers, and the handlers' copy of the mask.

Three support modules model the Python builtins the core relies on:

- `wrappers.dfy`: `Option`, `Result` and `Outcome`.
- `pystr.dfy`, module `PyStr`: `strip`, `replace`, `split`, `join`, `in` on strings, clamped slices and ASCII `lower`.
- `urlparse.dfy`, module `UrlParse`: the split of a URL into scheme, authority, path, query and fragment, in the order `urllib.parse.urlsplit` cuts them off after section 3 of RFC 3986, with the recomposition of section 5.3 proved to give the URL back. The library's checks on the netloc are covered only in part (see "Left out").

Python exceptions are values: `Result` and `Outcome` carry the error a call raises. Outside effects become parameters:

- The file system is a map from path to what reading it gives.
- The environment is a record holding `FEISHU_CONFIG_PATH` and the home directory.
- The HTTP transport is a function from the attempt number and the request to the reply.
- The clock is the formatted time string `test` puts in its message.

Stateful code is imperative Dafny, each method proved against a specification function:

- `_format_message`: `FormatMessage` against `Format`.
- `_send_to_webhooks`: `SendToWebhooks` against `Verdict(Outcomes(...))`.
- `_validate_config`: `ValidateConfig` against `Validation`.
- `Config.load`: `Load` against `LoadSettings`.

The properties below are proved about those functions.

Three behaviours of `_send_single_webhook` (src/feishu/notification.py:234-263) that are easy to misread:

- A JSON reply without a `code` field is a failure, because `None != 0`.
- The error raised for a non-200 status or a non-zero code inside `_send_single_webhook` is caught again by that method's last handler. So it surfaces as an "unknown error" wrapping the original: `Unknown(HttpStatus(..))` and `Unknown(ApiError(..))`.
- A JSON reply that is not an object also fails, because `.get` raises. This is `Unknown(NotAnObject)`.

## Model

| member | source | states |
|---|---|---|
| PyStr.Strip | src/feishu/notification.py:77 | `line.strip()` is the contiguous middle of the line with only whitespace cut off at both ends; it is empty exactly when the line is all whitespace, and otherwise neither begins nor ends with whitespace |
| PyStr.StripUnique | src/feishu/notification.py:77 | those facts determine the result: any middle piece with blank ends around it that is empty or has non-whitespace ends is `strip()`'s result |
| PyStr.Split | src/feishu/notification.py:76 | `split('\n')` gives at least one piece, no piece holds the separator, and a single piece is the whole string |
| PyStr.JoinSplit | src/feishu/notification.py:76-99 | joining the pieces of a split gives the string back |
| PyStr.SplitJoin | src/feishu/notification.py:99 | splitting a join of separator-free pieces gives the pieces back |
| PyStr.BlankJoin | src/feishu/notification.py:76-77 | a text is blank exactly when every line of it is blank |
| PyStr.Replace | src/feishu/notification.py:69-73 | `str.replace`, scanning from the left; it has no contract of its own: `ReplaceStep`, `ReplaceCopy` and `ReplaceSkip` state what it does with an occurrence, with a character that starts none and with the text before it, `ReplaceKeepsOut` and `ReplaceAbsent` what it leaves behind |
| PyStr.ReplaceSkip | src/feishu/notification.py:69-73 | a prefix that holds no first character of the pattern is copied unchanged, and the replacement goes on after it |
| PyStr.ReplaceStep | src/feishu/notification.py:69-73 | an occurrence of the pattern after such a prefix becomes the replacement text, and the replacement goes on after it |
| PyStr.ReplaceCopy | src/feishu/notification.py:69-73 | a character that does not begin an occurrence of the pattern is copied unchanged, after a prefix that cannot begin one, and the replacement goes on after it |
| PyStr.ReplaceHead | src/feishu/notification.py:69-73 | the replacement of a non-empty string starts with the replacement text's first character where the pattern begins the string, with the string's own first character otherwise |
| PyStr.ReplaceMiss | src/feishu/notification.py:69-73 | a two-character string that starts like a two-character pattern but is a different escape is copied unchanged |
| PyStr.ReplaceKeepsOut | src/feishu/notification.py:69-73 | replacing a two-character pattern by one character that is neither character of a two-character string `q` starting like the pattern leaves no `q` behind: neither the pattern itself nor any `q` absent before |
| PyStr.ReplaceAbsent | src/feishu/notification.py:69-73 | a string without the pattern's first character is left unchanged |
| PyStr.ContainsAt | src/feishu/config.py:194-195 | the substring test `in` holds exactly when the substring sits at some offset |
| UrlParse.SplitScheme | src/feishu/config.py:190 | a scheme that is cut off is non-empty, starts with an ASCII letter and holds only letters, digits and `+-.`; with the rest after its `:` it reassembles the URL, and without a scheme the rest is the whole URL |
| UrlParse.SchemeAbsent | src/feishu/config.py:190 | no scheme is cut off exactly when no text before a `:` of the URL is a scheme |
| UrlParse.SplitAuthority | src/feishu/config.py:190 | the netloc follows `//` and runs up to the first `/`, `?` or `#`; the pieces reassemble the input |
| UrlParse.SplitUrl | src/feishu/config.py:190 | the path of a split URL holds neither `?` nor `#` |
| UrlParse.RecomposeSplit | src/feishu/config.py:190 | recomposing the components of a split URL gives the URL back |
| FeishuConfig.IsValidWebhookUrl | src/feishu/config.py:189-198 | the URL is split and `AcceptedParts` applied; its partner lemmas are the rows below (what every accepted URL holds, and which URLs are accepted or rejected) |
| FeishuConfig.AcceptedParts | src/feishu/config.py:190-196 | a netloc with only one of `[` and `]` makes the split raise, so the URL is rejected; otherwise scheme `https` (lower-cased), `feishu.cn` in the netloc and the hook path in the path; `AcceptedPartsShape` derives the shape every accepted URL has |
| FeishuConfig.Iterate | src/feishu/config.py:167-172 | what `for webhook in webhooks` visits is empty exactly when the value is falsy |
| FeishuConfig.ValidWebhookPrefix | src/feishu/config.py:189-198 | every accepted URL starts with `https://`, the scheme in any letter case |
| FeishuConfig.ValidWebhookMentions | src/feishu/config.py:189-198 | every accepted URL contains `feishu.cn` and `/open-apis/bot/v2/hook/` |
| FeishuConfig.CanonicalWebhookValid | src/feishu/config.py:189-198 | `https://<host with feishu.cn>/open-apis/bot/v2/hook/<token>` is accepted |
| FeishuConfig.NoSchemeInvalid | src/feishu/config.py:193 | a string without `:` has no scheme and is rejected |
| FeishuConfig.PlainHttpInvalid | src/feishu/config.py:193 | an `http:` URL is rejected whatever follows |
| FeishuConfig.Validation | src/feishu/config.py:156-177 | the decision of `_validate_config`; `ValidationMeaning` states it and `ValidateConfig` is proved to compute it |
| FeishuConfig.FirstFailingMeaning | src/feishu/config.py:172-175 | the search finds nothing exactly when every entry passes, else the entry at the first failing position |
| FeishuConfig.ValidationMeaning | src/feishu/config.py:156-177 | validation passes exactly when the configuration is not enabled-and-empty and every webhook is valid; enabled-and-empty is reported as such; otherwise the error names the first invalid webhook in list order |
| FeishuConfig.ValidateConfig | src/feishu/config.py:156-177 | the loop that stops at the first invalid webhook decides what the validation function decides |
| FeishuConfig.MembershipTest | src/feishu/config.py:81 | on a table, `'feishu' in v` tests the keys |
| FeishuConfig.SelectSection | src/feishu/config.py:77-87 | a section is found exactly when there is `[feishu]` or `[notifications.feishu]`; `[feishu]` wins; with no `notifications` key, or a `notifications` table without `feishu`, the result is a `ConfigError` |
| FeishuConfig.SectionLayouts | src/feishu/config.py:77-87 | both layouts give the same section, and a top-level `[feishu]` is always the one used |
| FeishuConfig.FindConfigFile | src/feishu/config.py:116-135 | `_find_config_file`'s three guarded returns and the fallback; `FindConfigFileIsFirstExisting` proves it is the first existing candidate |
| FeishuConfig.FirstExistingMeaning | src/feishu/config.py:116-135 | the first existing path at the earliest position is picked, else the fallback |
| FeishuConfig.FindConfigFileIsFirstExisting | src/feishu/config.py:116-135 | discovery picks the first existing path among the environment variable (when set and non-empty), the per-user path and `config.toml`, falls back to the per-user path, and names an existing file whenever one of them exists |
| FeishuConfig.SettingsOf | src/feishu/config.py:88-98 | reading `enabled` and `webhooks` from the section with their defaults, then validating; `LoadedSettingsValid`, `MissingKeysDefault` and `EnabledEmptyRejected` state its results |
| FeishuConfig.LoadSettings | src/feishu/config.py:41-98 | what `Config.load` computes: path resolution, the missing-file, read and parse errors, section selection and `SettingsOf`; `LoadedSettingsValid` and `MissingFileReported` state its results and `Load` is proved against it |
| FeishuConfig.LoadedSettingsValid | src/feishu/config.py:92-98 | a configuration that loads is never enabled without webhooks, and all its webhooks are valid URLs |
| FeishuConfig.MissingKeysDefault | src/feishu/config.py:92-93 | a section without the keys loads as disabled with no webhooks |
| FeishuConfig.EnabledEmptyRejected | src/feishu/config.py:167-169 | an enabled section with an empty webhook list is rejected |
| FeishuConfig.MissingFileReported | src/feishu/config.py:59-61 | a path that does not exist is reported by name |
| FeishuConfig.MaskWebhook | src/feishu/config.py:237-242 | the mask starts with the first 10 (or 20) characters and ends with the last 10 (or 15), slices clamped |
| FeishuConfig.MaskLength | src/feishu/config.py:237-242 | a mask is 23 characters long for URLs of 10 to 50 characters and 38 beyond, with `...` in between; a URL of at most 10 characters is shown whole on both sides of `...` |
| FeishuConfig.Config.constructor | src/feishu/config.py:30-38 | the object holds the flag and the list it was given |
| FeishuConfig.Config.GetWebhooks | src/feishu/config.py:200-206 | the list returned equals the stored one; as a value, changing it cannot reach the object |
| FeishuConfig.Config.IsEnabled | src/feishu/config.py:208-214 | the stored flag; `Load` stores the truthiness of `enabled` there, and `LoadedSettingsValid` shows a set flag comes with at least one valid webhook |
| FeishuConfig.Config.GetConfigInfo | src/feishu/config.py:216-226 | reports the flag, the number of webhooks and one mask per webhook, in order |
| FeishuConfig.Load | src/feishu/config.py:41-98 | the load fails with the error `LoadSettings` gives, or yields a fresh object holding the flag and webhooks `LoadSettings` gives |
| Notification.ExpandEscapes | src/feishu/notification.py:68-73 | the three replacements in their order; `ExpandEscapesStep` states what each escape becomes, `ExpandEscapesKeepsBackslash` that any other backslash is kept, `ExpandEscapesPlain` that text without a backslash is unchanged (together these fix the result for every text), and `ExpandEscapesDone` that no escape is left |
| Notification.ExpandEscapesKeepsBackslash | src/feishu/notification.py:68-73 | after a backslash-free prefix, a backslash followed by nothing or by a character other than `n`, `t`, `r` is kept, and the rest is expanded in turn |
| Notification.ExpandEscapesStep | src/feishu/notification.py:68-73 | after a backslash-free prefix, `\n` becomes a line feed, `\t` a tab and `\r` a carriage return, and the rest is expanded in turn |
| Notification.ExpandEscapesDone | src/feishu/notification.py:68-73 | no `\n`, `\t` or `\r` escape pair is left after the expansion |
| Notification.ExpandEscapesPlain | src/feishu/notification.py:68-73 | a text without a backslash is left unchanged |
| Notification.StripAll | src/feishu/notification.py:77 | every line is replaced by its stripped form |
| Notification.Collapse | src/feishu/notification.py:79-91 | the blank-run collapse as a function of the lines; `CollapseRun`, `CollapseConcat` and `CollapseBlankBetween` state that each blank run becomes exactly one empty line, `CollapseNoDoubleBlank`, `CollapseKeeps` and `CollapseLast` state its shape, and `CollapseBlankRuns` is proved to compute it |
| Notification.DropLeading | src/feishu/notification.py:94-95 | only blank lines are removed, all from the front, and the result does not start with a blank line |
| Notification.DropTrailing | src/feishu/notification.py:96-97 | only blank lines are removed, all from the back, and the result does not end with a blank line |
| Notification.Format | src/feishu/notification.py:68-99 | what `_format_message` returns for a text; the `Format…` lemmas below state its properties |
| Notification.FormatMessage | src/feishu/notification.py:54-106 | `None` stays `None`; any text gives `Format` of it, the function the lemmas below are about |
| Notification.CollapseBlankRuns | src/feishu/notification.py:80-91 | the `prev_empty` loop computes the blank-run collapse of the lines |
| Notification.CollapseStep | src/feishu/notification.py:83-91 | one turn of the loop appends a non-blank line, drops a blank line after a blank one, and otherwise appends one empty line |
| Notification.TrimBlankLines | src/feishu/notification.py:93-97 | the two pop loops remove the blank lines at the front and then at the back |
| Notification.FormatEmpty | src/feishu/notification.py:65-66 | the empty string formats to itself |
| Notification.FormatOf | src/feishu/notification.py:68-99 | a text whose expansion is the join of lines that are already stripped and free of line breaks formats to those lines, collapsed, trimmed and joined |
| Notification.FormatExpandsEscape | src/feishu/notification.py:68-99 | for any two words (non-empty, without backslash or line break, no whitespace at either end): two words around an escaped `\n` (`"a\\nb"`) format to the two words on two lines (`"a\nb"`) |
| Notification.FormatKeepsParagraph | src/feishu/notification.py:68-99 | a paragraph break between two words (`"a\\n\\nb"`) is kept as one empty line (`"a\n\nb"`) |
| Notification.FormatCollapsesRun | src/feishu/notification.py:68-99 | four escaped `\n` between two words (`"a\\n\\n\\n\\nb"`) leave one empty line between them (`"a\n\nb"`) |
| Notification.FormatTrimsEnds | src/feishu/notification.py:68-99 | escaped `\n` before and after two words (`"\\n\\na\\nb\\n\\n"`) are trimmed away (`"a\nb"`) |
| Notification.FormatBlank | src/feishu/notification.py:65-99 | a whitespace-only text formats to the empty string |
| Notification.FormatEmptyIff | src/feishu/notification.py:69-99 | the result is empty exactly when the escape-expanded text is blank |
| Notification.FormatLines | src/feishu/notification.py:99 | the lines of the result are the cleaned lines |
| Notification.FormatLinesStripped | src/feishu/notification.py:76-77 | no line of the result begins or ends with whitespace |
| Notification.FormatNoDoubleBlank | src/feishu/notification.py:80-91 | the result never holds two empty lines in a row |
| Notification.FormatEdges | src/feishu/notification.py:93-99 | a non-empty result neither begins nor ends with an empty line or a whitespace character |
| Notification.FormatKeepsContent | src/feishu/notification.py:69-99 | the non-empty lines of the result are the stripped non-blank lines of the escape-expanded text, in order |
| Notification.CollapseNoDoubleBlank | src/feishu/notification.py:80-91 | collapsing leaves no two neighbouring blank lines |
| Notification.CollapseRun | src/feishu/notification.py:83-87 | a non-empty run of blank lines collapses to exactly one empty line |
| Notification.CollapseConcat | src/feishu/notification.py:80-91 | the collapse of two pieces that do not meet in two blank lines is the collapse of each, one after the other |
| Notification.CollapseBlankBetween | src/feishu/notification.py:80-91 | between two pieces that do not end and start blank, a run of one or more blank lines becomes exactly one empty line |
| Notification.CollapseKeeps | src/feishu/notification.py:80-91 | collapsing keeps every non-blank line, in order |
| Notification.CollapseLast | src/feishu/notification.py:80-91 | the last collapsed line is blank exactly when the last input line is |
| Notification.DropLeadingKeeps | src/feishu/notification.py:94-95 | dropping leading blank lines keeps every non-blank line |
| Notification.DropTrailingKeeps | src/feishu/notification.py:96-97 | dropping trailing blank lines keeps every non-blank line |
| Notification.CleanedShape | src/feishu/notification.py:76-97 | the joined lines are stripped, never two blank in a row, and not blank at either end |
| Notification.EscapeOnlyFormatsEmpty | src/feishu/notification.py:121-125 | the text `\n` written as an escape passes the blank check of `send_text` yet formats to the empty string |
| Notification.TextPayload | src/feishu/notification.py:127-132 | the payload is `{"msg_type": "text", "content": {"text": text}}` |
| Notification.PostPayload | src/feishu/notification.py:156-161 | the payload is `{"msg_type": "post", "content": {"post": content}}` |
| Notification.PayloadRoundTrip | src/feishu/notification.py:127-161 | the text carried by a text payload is the text it was built from; a rich-text payload carries none |
| Notification.ClassifyReply | src/feishu/notification.py:217-263 | the outcome of `_send_single_webhook` for one reply; `AcceptedReplies` and `RejectedReplies` state it for every kind of reply |
| Notification.AcceptedReplies | src/feishu/notification.py:234-252 | a webhook accepts exactly when it answers 200 with a non-JSON body or with a JSON object whose `code` equals 0 |
| Notification.RejectedReplies | src/feishu/notification.py:234-263 | a non-200 status fails whatever the body; a status-200 JSON value that is not an object fails as `NotAnObject`, and an object whose `code` is not 0 as `ApiError` with that code, both in the generic handler; an exception fails with the first of `Timeout`, `ConnectionError`, `RequestException` its class matches, and any other exception in the generic handler |
| Notification.Requests | src/feishu/notification.py:183-185 | one request per webhook, in list order, with the same payload, headers and timeout |
| Notification.Outcomes | src/feishu/notification.py:183-191 | one outcome per request, the classification of the reply to that request |
| Notification.Verdict | src/feishu/notification.py:194-205 | the only success is `True` |
| Notification.FailureLogCount | src/feishu/notification.py:180-191 | the success count plus the number of logged errors is the number of webhooks |
| Notification.FailureLogSound | src/feishu/notification.py:188-191 | each logged error names a failed webhook by its 1-based position, with its error |
| Notification.FailureLogOrdered | src/feishu/notification.py:183-191 | the errors are logged in increasing position |
| Notification.FailureLogComplete | src/feishu/notification.py:183-191 | every failed webhook is logged |
| Notification.DeliveredExtremes | src/feishu/notification.py:180-186 | the count reaches the total exactly when all accepted, and stays 0 exactly when none did |
| Notification.VerdictMeaning | src/feishu/notification.py:194-205 | `True` exactly when there are webhooks and all accepted; total failure exactly when none accepted; otherwise a partial failure whose count lies strictly between 0 and the total, with one error per failed webhook |
| Notification.AllAccepted | src/feishu/notification.py:183-205 | sending to a non-empty list of webhooks succeeds exactly when the reply of every webhook is classified as accepted |
| Notification.PartialDeliveryExample | src/feishu/notification.py:194-201 | one success (code 0) and one HTTP 400 out of two give a partial failure reporting 1 of 2 and the second webhook's status |
| Notification.CheckArguments | src/feishu/notification.py:40-44 | construction is refused exactly when the list is empty or the timeout is not positive; the empty list is reported first |
| Notification.NewNotifier | src/feishu/notification.py:30-50 | the first failed check's error, or a fresh notifier that stores both arguments unchanged with the JSON headers |
| Notification.FeishuNotifier.constructor | src/feishu/notification.py:46-50 | the notifier holds the list, the timeout and the JSON content-type header |
| Notification.FeishuNotifier.SendToWebhooks | src/feishu/notification.py:168-205 | the loop posts to every webhook exactly once, in order, and gives the verdict of the outcomes, which is a success exactly when every webhook accepts |
| Notification.FeishuNotifier.SendText | src/feishu/notification.py:108-138 | missing or blank text fails before anything is sent; otherwise the formatted text payload goes to every webhook and the verdict is the result |
| Notification.FeishuNotifier.SendRichText | src/feishu/notification.py:140-166 | missing or empty content fails before anything is sent; otherwise the post payload goes to every webhook and the verdict is the result |
| Notification.Lift | src/feishu/notification.py:138 | a send succeeds exactly when the delivery does, and fails with the delivery's error otherwise |
| Cli.Send | src/feishu/cli.py:55-106 | a missing or blank message exits 1 before any load; otherwise the message is delivered |
| Cli.Test | src/feishu/cli.py:146-195 | the timestamped test message is delivered |
| Cli.Deliver | src/feishu/cli.py:77-93 | the `config` argument goes to the load unchanged; a load error or a disabled configuration exits 1 with no notifier built; otherwise the configured webhooks get one notifier with timeout 10 and the text is sent once |
| Cli.Notify | src/feishu/cli.py:88-96 | the notifier sends the text to exactly the configured webhooks, and the handler returns `True` exactly when delivery succeeds |
| Cli.DeliversMeaning | src/feishu/cli.py:91-106 | a handler returns `True` exactly when the configuration loads, is enabled and every webhook accepts; every other ending is exit code 1 |
| Cli.TestMessage | src/feishu/cli.py:169 | the test message is never blank and starts with its fixed heading |
| Cli.MaskWebhook | src/feishu/cli.py:206-220 | the command line's mask equals the configuration's mask for every URL |

## Left out

- The HTTP transport (`requests.post`, real timeouts, `response.json()` decoding). The reply to each request is a parameter: a status with a body that is not JSON or parsed JSON, or an exception described by the classes it belongs to.
- Error message texts and all logging (`loguru` calls, `_setup_logging`). Errors are modelled by kind and by the handler that produced them.
- TOML parsing and file reading. A path maps to unreadable, malformed or a parsed document.
- TOML floats and dates, and JSON floats. A `code` of `0.0` would also count as zero in Python.
- `FeishuConfig.Iterate`: iterating a non-empty table visits its keys in file order, which a map does not keep. Such a `webhooks` value is reported as not iterable instead.
- `FeishuConfig.Load`: stores the truthiness of `enabled` rather than the raw TOML value. The command line only tests its truthiness (src/feishu/cli.py:80).
- `FeishuConfig.Config.GetConfigInfo` and `FeishuConfig.Config.IsEnabled`: for an `enabled` value that is not a boolean (a string, a number), the source returns the raw value (src/feishu/config.py:214, 223); the model returns its truthiness.
- `FeishuConfig.IsValidWebhookUrl`: does not model the bracketed-host check that `urlsplit` performs from Python 3.11.4 on. There, a netloc holding both `[` and `]` must bracket an IPv6 address or an IPvFuture literal, or the split raises `ValueError` and the URL is rejected. The model accepts a URL such as `https://[x]feishu.cn/open-apis/bot/v2/hook/t`, which those versions reject. The check differs between interpreter versions and needs an IPv6 address parser. The check for a lone `[` or `]`, present in every version, is modelled.
- `UrlParse.SplitUrl` leaves out three more things:
  - the clean-up before the split: leading C0 control characters and spaces are stripped, and tab, CR and LF are removed wherever they occur in the URL;
  - the NFKC netloc check for non-ASCII hosts;
  - the `;params` split of `urlparse`. The params split cannot change the hook-path test: the hook path ends in `/`, and params are cut only after the last `/`.
- `FeishuConfig.CanonicalWebhookValid`: proves acceptance for the provider's URL shape only. The complete acceptance condition is the definition `IsValidWebhookUrl` itself.
- `get_config_path` (an alias of `_find_config_file`) and `get_default_config_dir` (a fixed path). Also `get_webhook_count` and `get_timeout`, which are plain reads of constant fields.
- Non-ASCII whitespace in `strip()` and non-ASCII letters in `lower()`. Whitespace is the ASCII set Python strips.
- The `status` and `version` commands and all `print` output. Also `fire` dispatch, `main` and `KeyboardInterrupt`.
- The time of day in the test message, which is a parameter.
- The installer scripts and `debug_config.py`, which only create directories, write a template and print.
