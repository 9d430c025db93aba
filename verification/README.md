# Card management front end: client-side decision procedures

This project models the client-side rules of a card-management web front
end. The site is a React application. Members register for a cultural-awareness
card, edit their profile, see their digital card and ask questions in a chat.
Administrators review applications, card upgrades and renewals, compose
notifications and answer the chat. The server itself is not part of this
repository. What the pages decide on their own is modelled:

- how the registration form becomes a payload;
- how the notification composer edits its level tags and attachments, and when it may send;
- the notification table's status chip, keyword filter, Excel column widths and the loop that gathers every page for the export;
- the admin chat inbox: response normalisation, tabs and paging, and the reply guard with its parent message;
- the member chat: previews, the question, reply and hand-over requests, alignment and toast colour;
- what the member's digital card shows;
- the profile editor: loading, the dirty flag, cancel, and save with its checks and merge;
- the three admin user tables: sorting, paging, status chips, the card approval payload, the approve and reject gating, and the local delete.

Every request is a parameter carrying its outcome (`Outcome`, or `ApiResult`
in the member chat). A page's React state is a class whose fields the
handler methods update. Those methods state the whole new state in
their postconditions. Pure helpers are functions, and lemmas state the
properties that relate them.

JavaScript semantics are modelled where the pages depend on them. They live
in two shared modules:

- `Js`: the values a field can hold (undefined, null, NaN, a decimal number,
  a string), truthiness, `===`, `??`, `||`, `Number(...)`, `parseInt(..., 10)`
  and `String(...)`.
- `Text`: `trim` with the ECMAScript white-space set, case mapping, `includes`
  and `padStart`, and decimal digits.

Other shared modules:

- `Lists`: `filter` and removal by index.
- `TableSort`: the header sort toggle and reject-confirmation gating that the
  admin tables share.
- `AdminUsers`: the user row, the list response and the chip mapper of the
  three admin tables.

Module map:

| module | file | page |
|---|---|---|
| RegisterCard | register_card.dfy | src/pages/register/RegisterCard.jsx |
| NotificationCompose | notification_compose.dfy | src/pages/ProfilePageAdmin/tabs/NotificationCompose.jsx |
| NotificationTable | notification_table.dfy | src/pages/ProfilePageAdmin/tabs/DigitalCardTab.jsx |
| AdminChat | admin_chat.dfy | src/pages/ProfilePageAdmin/tabs/chat/AdminView.jsx |
| UserChat | user_chat.dfy | src/pages/ProfilePage/tabs/chat/UserView.jsx |
| DigitalCard | digital_card.dfy | src/pages/ProfilePage/tabs/DigitalCardTab.jsx |
| ProfileEditor | profile_editor.dfy | src/pages/ProfilePage/tabs/ProfileTab.jsx |
| UpgradeTab | upgrade_tab.dfy | src/pages/ProfilePageAdmin/tabs/UpgradeTab.tsx |
| UserTable | user_table.dfy | src/pages/ProfilePageAdmin/tabs/ProfileTab.jsx |
| RenewalTab | renewal_tab.dfy | src/pages/ProfilePageAdmin/tabs/RenewalTab.jsx |

## Model

| member | source | states |
|---|---|---|
| Text.Trim | src/pages/register/RegisterCard.jsx:126 | `trim` never lengthens the text and leaves no white space at either end |
| Text.BlankIffAllSpace | src/pages/ProfilePageAdmin/tabs/NotificationCompose.jsx:70 | `!s.trim()` holds exactly when every character of `s` is white space |
| Text.TrimPadded | src/pages/ProfilePage/tabs/DigitalCardTab.jsx:63 | white space added at either end never changes what `trim` gives |
| Text.TrimIdempotent | src/pages/register/RegisterCard.jsx:130 | trimming twice is trimming once |
| Text.UpperIgnoresCase | src/pages/ProfilePageAdmin/tabs/DigitalCardTab.jsx:32 | upper-casing ignores whether the text was first lower- or upper-cased |
| Text.PadStart | src/pages/ProfilePage/tabs/DigitalCardTab.jsx:65 | `padStart(w, c)` gives the longer of the text and `w` characters, ends with the text and fills the front with `c` |
| Text.IntText | src/pages/ProfilePageAdmin/tabs/chat/AdminView.jsx:127 | the decimal text of an integer is a sign and digits whose value is the integer |
| Text.NatText | src/pages/ProfilePage/tabs/DigitalCardTab.jsx:65 | the decimal text of a natural number is digits without a leading zero whose value is the number |
| Text.TrimIsInfix | src/pages/register/RegisterCard.jsx:126 | the trimmed text occurs inside the original |
| Text.LowerIgnoresCase | src/pages/ProfilePageAdmin/tabs/DigitalCardTab.jsx:179 | lower-casing twice is lower-casing once |
| Text.ContainsInfix | src/pages/ProfilePageAdmin/tabs/DigitalCardTab.jsx:180 | `includes` finds any text placed inside another |
| Js.Coalesce | src/pages/ProfilePage/tabs/ProfileTab.jsx:136 | `v ?? f` is `f` exactly for undefined or null (or when `v` already is `f`), otherwise `v` |
| Js.Or | src/pages/ProfilePage/tabs/ProfileTab.jsx:51 | `v \|\| f` keeps a truthy `v` and gives `f` for a falsy one |
| Js.ParseInt | src/pages/ProfilePageAdmin/tabs/DigitalCardTab.jsx:170 | `parseInt(s, 10)` is NaN exactly when no digit follows the leading white space and optional sign |
| Js.NumberOfIntText | src/pages/register/RegisterCard.jsx:132 | `Number` reads the decimal text of any integer back as that integer |
| Js.ParseIntOfIntText | src/pages/ProfilePage/tabs/DigitalCardTab.jsx:78 | `parseInt` reads the decimal text of any integer back as that integer |
| Js.ToNumber | src/pages/ProfilePage/tabs/ProfileTab.jsx:100 | `Number(v)` is always a number or NaN |
| Js.NumberText | src/pages/ProfilePage/tabs/DigitalCardTab.jsx:65 | `String` of a whole number is its decimal integer text |
| Js.NumberOfNatText | src/pages/register/RegisterCard.jsx:132 | `Number` reads the decimal text of a natural number back as that number |
| Lists.Filter | src/pages/ProfilePageAdmin/tabs/ProfileTab.jsx:100 | `filter` keeps exactly the elements that pass, drawn from the list |
| Lists.FilterAppend | src/pages/ProfilePageAdmin/tabs/DigitalCardTab.jsx:177 | filtering distributes over concatenation, so kept elements stay in order |
| Lists.FilterKeepsAll | src/pages/ProfilePageAdmin/tabs/ProfileTab.jsx:100 | a test every element passes keeps the list as it is |
| Lists.FilterSameTest | src/pages/ProfilePageAdmin/tabs/ProfileTab.jsx:100 | two tests that agree on every element filter alike |
| Lists.FilterCount | src/pages/ProfilePageAdmin/tabs/NotificationCompose.jsx:48 | every element that passes is kept as often as it occurs, and no other element is kept |
| Lists.RemoveAt | src/pages/register/RegisterCard.jsx:446 | `filter((_, i) => i !== index)` removes exactly the element at `index`, or nothing when it is no index |
| RegisterCard.TrimOrNull | src/pages/register/RegisterCard.jsx:125-128 | null exactly when only white space was typed; otherwise the trimmed, non-empty text |
| RegisterCard.TrimOrNullKeeps | src/pages/register/RegisterCard.jsx:125-128 | a kept text is a piece of the input with no white space at either end, and trimming first changes nothing |
| RegisterCard.ToYearOrNull | src/pages/register/RegisterCard.jsx:129-138 | a kept year is an integer from 1900 to this year that `Number` reads from the text; blank text gives null |
| RegisterCard.YearRoundTrip | src/pages/register/RegisterCard.jsx:129-138 | every year in range, written in decimal with any padding, is read back as itself |
| RegisterCard.IsoDateOrNull | src/pages/register/RegisterCard.jsx:139-144 | the trimmed text is kept exactly when it is four digits, '-', two digits, '-', two digits |
| RegisterCard.IsoDateRoundTrip | src/pages/register/RegisterCard.jsx:139-144 | every zero-padded year-month-day date passes, and its three fields read back as the numbers written |
| RegisterCard.IsoDateOfParts | src/pages/register/RegisterCard.jsx:139-144 | four, two and two digits joined by dashes pass the date check, and each part sits at its place |
| RegisterCard.EmailAcceptedIffPattern | src/pages/register/RegisterCard.jsx:111 | the e-mail test accepts exactly the texts of the form a@b.c with non-empty, space-free a, b and c |
| RegisterCard.PatternAccepted | src/pages/register/RegisterCard.jsx:111 | every a@b.c with non-empty, space-free parts passes the e-mail test |
| RegisterCard.AcceptedNotEmpty | src/pages/register/RegisterCard.jsx:110-111 | an accepted e-mail is never empty, so it always survives the cleanup |
| RegisterCard.NormaliseExperience | src/pages/register/RegisterCard.jsx:163-173 | a row is dropped exactly when all three parts normalise to null; a kept row holds exactly the non-null parts: the trimmed name and provider, and the trimmed date in YYYY-MM-DD form |
| RegisterCard.NormaliseExperiences | src/pages/register/RegisterCard.jsx:162-174 | the surviving rows are no more than the rows and each holds at least one key |
| RegisterCard.NoExperienceSurvives | src/pages/register/RegisterCard.jsx:162-174 | no row survives exactly when every row normalises to null |
| RegisterCard.NormaliseExperiencesAppend | src/pages/register/RegisterCard.jsx:162-174 | rows are normalised independently and the survivors keep their relative order |
| RegisterCard.Payload | src/pages/register/RegisterCard.jsx:147-159 | the payload holds every field key with its normalised value and no `experiences` key |
| RegisterCard.WithExperiences | src/pages/register/RegisterCard.jsx:175 | `experiences` is added exactly when some row survives, and every other key is kept |
| RegisterCard.Cleaned | src/pages/register/RegisterCard.jsx:178-180 | afterwards no key holds null or ""; a key survives exactly when its value is neither, with its value unchanged |
| RegisterCard.Cleanup | src/pages/register/RegisterCard.jsx:178-180 | the loop deleting keys one by one ends with exactly the cleaned payload |
| RegisterCard.OnRegister | src/pages/register/RegisterCard.jsx:106-180 | a bad e-mail or a missing code stops with its alert before any payload; otherwise the cleaned payload is sent |
| RegisterCard.SubmittedField | src/pages/register/RegisterCard.jsx:147-180 | a field key reaches the server exactly when its value is neither null nor "", and with that value |
| RegisterCard.CleanedAt | src/pages/register/RegisterCard.jsx:178-180 | the cleanup keeps a key exactly when its value is neither null nor "", with that value |
| RegisterCard.TextFieldEmpty | src/pages/register/RegisterCard.jsx:125-128 | a trimmed text field is dropped exactly when only white space was typed, and otherwise holds the trimmed text |
| RegisterCard.SubmittedEmail | src/pages/register/RegisterCard.jsx:156-158 | a submitted payload always carries the trimmed e-mail and never a photo URL |
| RegisterCard.SubmittedText | src/pages/register/RegisterCard.jsx:148-157 | a text field reaches the server exactly when something other than white space was typed, and trimmed |
| RegisterCard.SubmittedYear | src/pages/register/RegisterCard.jsx:150 | a submitted year of birth is always a number from 1900 to this year |
| RegisterCard.SubmittedExperiences | src/pages/register/RegisterCard.jsx:162-180 | the payload has `experiences` exactly when some row is not entirely empty |
| RegisterCard.CleanedExperiences | src/pages/register/RegisterCard.jsx:175-180 | `experiences` survives the cleanup exactly when some row was kept |
| RegisterCard.RegisterForm.constructor | src/pages/register/RegisterCard.jsx:23-25 | the form starts with one blank experience row |
| RegisterCard.RegisterForm.AddExperience | src/pages/register/RegisterCard.jsx:103-104 | exactly one blank row is appended; at least one row remains |
| RegisterCard.RegisterForm.RemoveExperience | src/pages/register/RegisterCard.jsx:442-446 | Remove, offered only for rows after the first, deletes exactly that row; at least one row remains |
| RegisterCard.RegisterForm.ChangeExperience | src/pages/register/RegisterCard.jsx:40-44 | one part of one row is replaced and every other row is kept |
| NotificationCompose.FirstMissing | src/pages/ProfilePageAdmin/tabs/NotificationCompose.jsx:45 | `find` gives the earliest option not yet chosen, or nothing exactly when all are chosen |
| NotificationCompose.AddLevel | src/pages/ProfilePageAdmin/tabs/NotificationCompose.jsx:44-47 | the first of 1 to 4 not yet chosen is appended; with all four chosen the list is unchanged |
| NotificationCompose.AddLevelKeepsShape | src/pages/ProfilePageAdmin/tabs/NotificationCompose.jsx:44-47 | adding grows the list by at most one, keeps it as a prefix, creates no duplicate and stays within 1 to 4 |
| NotificationCompose.AddLevelGrows | src/pages/ProfilePageAdmin/tabs/NotificationCompose.jsx:44-47 | with fewer than four distinct levels chosen, adding always adds one |
| NotificationCompose.AtMostFourLevels | src/pages/ProfilePageAdmin/tabs/NotificationCompose.jsx:28 | a duplicate-free list of levels drawn from the options has at most four entries |
| NotificationCompose.AllOptionsTakeFour | src/pages/ProfilePageAdmin/tabs/NotificationCompose.jsx:44-47 | a list holding every option has at least four entries |
| NotificationCompose.RemoveLevel | src/pages/ProfilePageAdmin/tabs/NotificationCompose.jsx:48 | every occurrence of the level is removed, and every other level is kept as often as it occurred |
| NotificationCompose.RemoveLevelAppend | src/pages/ProfilePageAdmin/tabs/NotificationCompose.jsx:48 | removal works on each part of the list in place, so the kept levels stay in their order |
| NotificationCompose.RemoveUndoesAdd | src/pages/ProfilePageAdmin/tabs/NotificationCompose.jsx:44-48 | removing the level just added gives back the list before the add |
| NotificationCompose.SelectFiles | src/pages/ProfilePageAdmin/tabs/NotificationCompose.jsx:50-53 | the picked files follow the ones already listed, which are kept in place |
| NotificationCompose.DeleteFile | src/pages/ProfilePageAdmin/tabs/NotificationCompose.jsx:190 | only the attachment at the chip's index is removed; the others keep their order |
| NotificationCompose.Validate | src/pages/ProfilePageAdmin/tabs/NotificationCompose.jsx:69-75 | the first failing check's message in the order subject, content, recipients, each with its own text; "" exactly when all pass |
| NotificationCompose.HandleSend | src/pages/ProfilePageAdmin/tabs/NotificationCompose.jsx:77-102 | nothing is posted exactly when validation fails; otherwise the draft's fields are posted and the lines report the outcome |
| NotificationTable.StatusToChip | src/pages/ProfilePageAdmin/tabs/DigitalCardTab.jsx:31-36 | SUCCESS and READ give "• Success" in success colour, FAIL and ERROR "• Fail" in error colour, any other text and a missing status "• Pending" in warning colour; a truthy number makes the call throw |
| NotificationTable.TextOrEmpty | src/pages/ProfilePageAdmin/tabs/DigitalCardTab.jsx:32 | `(v \|\| '')` gives the text, "" for a falsy value, and throws on a string method for a truthy number |
| NotificationTable.StatusChipIgnoresCase | src/pages/ProfilePageAdmin/tabs/DigitalCardTab.jsx:31-36 | the chip does not depend on the case the status is written in |
| NotificationTable.FilteredData | src/pages/ProfilePageAdmin/tabs/DigitalCardTab.jsx:177-182 | all rows for an empty keyword; otherwise exactly the rows whose lower-cased name or e-mail contains the lower-cased keyword, or a throw, which can only come from a row with a numeric name or e-mail |
| NotificationTable.FilteredDataAppend | src/pages/ProfilePageAdmin/tabs/DigitalCardTab.jsx:177-182 | the filter works row by row: the kept rows stay in their order, and the whole throws exactly when a part does |
| NotificationTable.FilteredDataLowerKeyword | src/pages/ProfilePageAdmin/tabs/DigitalCardTab.jsx:179 | a keyword finds the same rows as its lower-cased form |
| NotificationTable.ExcelCells | src/pages/ProfilePageAdmin/tabs/DigitalCardTab.jsx:72-80 | each export row has one cell per sheet column |
| NotificationTable.MaxLen | src/pages/ProfilePageAdmin/tabs/DigitalCardTab.jsx:87-90 | the longest of the header and the column's cells: no shorter than any, equal to one |
| NotificationTable.LongestCell | src/pages/ProfilePageAdmin/tabs/DigitalCardTab.jsx:88-89 | the longest cell of a column: no cell is longer, and some cell has that length unless it is 0 |
| NotificationTable.Width | src/pages/ProfilePageAdmin/tabs/DigitalCardTab.jsx:91 | the width is `maxLen + 2` when that lies within 8..40, 8 below and 40 above |
| NotificationTable.ColumnWidths | src/pages/ProfilePageAdmin/tabs/DigitalCardTab.jsx:86-92 | one width per key of the first row (the single key "A" without rows), each within 8..40 |
| NotificationTable.ColumnsFitTheirText | src/pages/ProfilePageAdmin/tabs/DigitalCardTab.jsx:87-91 | every column is two wider than its header and each of its cells, unless that passes 40 |
| NotificationTable.ExportWidths | src/pages/ProfilePageAdmin/tabs/DigitalCardTab.jsx:72-93 | an export of rows gets seven widths, and one without rows gets a single width |
| NotificationTable.FetchAll | src/pages/ProfilePageAdmin/tabs/DigitalCardTab.jsx:133-152 | the loop returns what gathering from page 0 gives: the pages' rows in order, or the first failure |
| NotificationTable.Step | src/pages/ProfilePageAdmin/tabs/DigitalCardTab.jsx:146-149 | one iteration goes on exactly when the answer is a page with rows not marked last, appending its rows; otherwise it ends with the rows so far plus the page's, or with the failure or the null body's error |
| NotificationTable.ConstantAnswerNeverEnds | src/utils/api.js:84 | as written the page query is dropped, so every iteration gets the first answer; run through the same Step as FetchAll, a first answer with rows not marked last leaves the loop running after any number of iterations, one more copy of the rows each time |
| NotificationTable.GatheredIsConcatenation | src/pages/ProfilePageAdmin/tabs/DigitalCardTab.jsx:137-151 | when pages 0..k-1 continue and page k is last or empty, the export holds pages 0..k concatenated in order |
| NotificationTable.GatheredFrom | src/pages/ProfilePageAdmin/tabs/DigitalCardTab.jsx:137-151 | gathering from page i, when pages i..k-1 continue and page k stops, gives pages i..k in order |
| NotificationTable.PrependTwice | src/pages/ProfilePageAdmin/tabs/DigitalCardTab.jsx:147 | adding two pages in turn to the front is adding their concatenation |
| NotificationTable.PrependEmpty | src/pages/ProfilePageAdmin/tabs/DigitalCardTab.jsx:147 | adding an empty page changes nothing |
| NotificationTable.GatheredFailure | src/pages/ProfilePageAdmin/tabs/DigitalCardTab.jsx:139-150 | a request failing before the last page ends the export with that request's error |
| NotificationTable.ExportError | src/pages/ProfilePageAdmin/tabs/DigitalCardTab.jsx:97-98 | an error line appears exactly when the export fails, and names its message |
| NotificationTable.NotificationTableState.constructor | src/pages/ProfilePageAdmin/tabs/DigitalCardTab.jsx:49-52 | the table opens on page 0, ten rows a page, newest first |
| NotificationTable.NotificationTableState.HandleSort | src/pages/ProfilePageAdmin/tabs/DigitalCardTab.jsx:160-165 | a column that is not sortable changes nothing; otherwise the order toggles and the column becomes the key, page kept |
| NotificationTable.NotificationTableState.ChangeRowsPerPage | src/pages/ProfilePageAdmin/tabs/DigitalCardTab.jsx:169-174 | the size read with `parseInt` is kept and the page goes back to 0 |
| AdminChat.TabPath | src/pages/ProfilePageAdmin/tabs/chat/AdminView.jsx:125-128 | each tab has its own endpoint |
| AdminChat.ListUrlInjective | src/pages/ProfilePageAdmin/tabs/chat/AdminView.jsx:119-128 | two list requests have the same URL only for the same tab and page |
| AdminChat.Normalize | src/pages/ProfilePageAdmin/tabs/chat/AdminView.jsx:132-134 | an array becomes a single page holding it, a page record is kept, no body becomes an empty page numbered `p` |
| AdminChat.AdminInbox.constructor | src/pages/ProfilePageAdmin/tabs/chat/AdminView.jsx:113-119 | the inbox opens on the To-do tab, page 0, with no list and no thread |
| AdminChat.AdminInbox.ContentList | src/pages/ProfilePageAdmin/tabs/chat/AdminView.jsx:150 | no list loaded shows no questions |
| AdminChat.AdminInbox.Load | src/pages/ProfilePageAdmin/tabs/chat/AdminView.jsx:121-143 | the tab's URL is requested; success keeps the normalised page and its number, failure only the error |
| AdminChat.AdminInbox.SwitchTab | src/pages/ProfilePageAdmin/tabs/chat/AdminView.jsx:164-183 | the other tab's button switches tab, closes the thread and loads page 0, clearing the error on success and showing the failure's message with the list kept otherwise; the current tab's button does nothing |
| AdminChat.AdminInbox.PrevPage | src/pages/ProfilePageAdmin/tabs/chat/AdminView.jsx:228-230 | "last page", when shown and enabled, requests page-1 of the tab (never below 0) and loads it as Load does; otherwise it does nothing |
| AdminChat.AdminInbox.NextPage | src/pages/ProfilePageAdmin/tabs/chat/AdminView.jsx:228-232 | "next page", when shown and enabled, requests page+1 of the tab (never past the last page) and loads it as Load does; otherwise it does nothing |
| AdminChat.AdminInbox.OpenThread | src/pages/ProfilePageAdmin/tabs/chat/AdminView.jsx:197 | a click on a question opens it and changes nothing else |
| AdminChat.AdminInbox.CloseThread | src/pages/ProfilePageAdmin/tabs/chat/AdminView.jsx:245 | the Back button closes the thread view and changes nothing else |
| AdminChat.ThreadFrom | src/pages/ProfilePageAdmin/tabs/chat/AdminView.jsx:21 | an array is kept, otherwise the object's `content`, otherwise [] |
| AdminChat.ReplyFor | src/pages/ProfilePageAdmin/tabs/chat/AdminView.jsx:35-49 | no reply exactly for blank text, no user or no messages; otherwise a TEXT reply to the last message, text as typed |
| AdminChat.ReplyAnswersNewest | src/pages/ProfilePageAdmin/tabs/chat/AdminView.jsx:37-44 | once a new message is loaded at the end, the next reply answers it |
| AdminChat.RoleOrAdmin | src/pages/ProfilePageAdmin/tabs/chat/AdminView.jsx:6 | the reply role is ADMIN unless one is given |
| AdminChat.ChatView.constructor | src/pages/ProfilePageAdmin/tabs/chat/AdminView.jsx:6-11 | the view starts empty and replies with the given role or ADMIN |
| AdminChat.ChatView.LoadThread | src/pages/ProfilePageAdmin/tabs/chat/AdminView.jsx:14-28 | nothing without a thread id; otherwise the normalised messages, or the error with the messages kept |
| AdminChat.ChatView.Send | src/pages/ProfilePageAdmin/tabs/chat/AdminView.jsx:33-59 | the reply posted is the guarded reply to the last message; success clears the input and shows the reloaded messages, or the reload's error with the messages kept; failure keeps the input with the error |
| UserChat.Preview | src/pages/ProfilePage/tabs/chat/UserView.jsx:242-245 | over 50 characters: the first 50 and "..."; otherwise the content; "No content" for none |
| UserChat.PreviewOfText | src/pages/ProfilePage/tabs/chat/UserView.jsx:242-245 | a preview is at most 53 characters and starts with the text's own beginning |
| UserChat.ToastSeverity | src/pages/ProfilePage/tabs/chat/UserView.jsx:376 | the toast is green exactly when its text contains "successfully", red otherwise |
| UserChat.SentToAdminToastIsGreen | src/pages/ProfilePage/tabs/chat/UserView.jsx:165 | the hand-over confirmation shows green |
| UserChat.FailureToastsAreRed | src/pages/ProfilePage/tabs/chat/UserView.jsx:376 | every failure text shows red unless the server's own code or message says "successfully" |
| UserChat.SubmitFailureTextClean | src/pages/ProfilePage/tabs/chat/UserView.jsx:114-118 | the question's failure line never contains "successfully" unless the server's code or message does |
| UserChat.FailureTextClean | src/pages/ProfilePage/tabs/chat/UserView.jsx:148-152 | a "Failed to ..." line never contains "successfully" unless the server's message does |
| UserChat.QuestionFor | src/pages/ProfilePage/tabs/chat/UserView.jsx:84-98 | no question exactly for blank content; otherwise the trimmed content as TEXT, not sent to an admin |
| UserChat.ReplyFor | src/pages/ProfilePage/tabs/chat/UserView.jsx:126-139 | no reply exactly for blank content or no open thread; otherwise the trimmed content as TEXT to that thread |
| UserChat.RequestsIgnorePadding | src/pages/ProfilePage/tabs/chat/UserView.jsx:95-134 | white space typed around a question or reply is never sent |
| UserChat.StoredAsWritten | src/pages/ProfilePage/tabs/chat/UserView.jsx:56 | as written, `res \|\| []` stores something other than a list exactly for a page object |
| UserChat.PageBodyNotAList | src/pages/ProfilePage/tabs/chat/UserView.jsx:56 | as written, a page of messages is stored as the object, while the corrected reading gives its messages |
| UserChat.MessagesOfAgrees | src/pages/ProfilePageAdmin/tabs/chat/AdminView.jsx:20-21 | the corrected reading agrees with the code as written on every array and null body, and reads a page as its `content` |
| UserChat.UserChatView.constructor | src/pages/ProfilePage/tabs/chat/UserView.jsx:20-27 | the page starts with no questions, no thread, no messages and an empty input |
| UserChat.UserChatView.LoadThreads | src/pages/ProfilePage/tabs/chat/UserView.jsx:30-49 | the questions of the response (none when it has no `content`), or the failure text with the list kept |
| UserChat.UserChatView.LoadThreadMessages | src/pages/ProfilePage/tabs/chat/UserView.jsx:52-67 | corrected (see "## Findings"): the messages of the response read as an array, a page's `content` or none for null, or the failure text with the messages kept |
| UserChat.UserChatView.OpenThread | src/pages/ProfilePage/tabs/chat/UserView.jsx:75-79 | corrected reading of the messages (see "## Findings"): a click opens the question and shows its messages, or the load's failure text with the messages kept; a click on the question already open changes nothing |
| UserChat.UserChatView.SubmitQuestion | src/pages/ProfilePage/tabs/chat/UserView.jsx:82-122 | the guarded question is posted; success clears the input and shows the reloaded list, or the reload's failure text; failure keeps the input and shows the code and message |
| UserChat.UserChatView.SendReply | src/pages/ProfilePage/tabs/chat/UserView.jsx:125-156 | corrected reading of the messages (see "## Findings"): the guarded reply is posted to the open thread; success clears the input and shows the reloaded messages, or the reload's failure text; failure keeps the input with the error |
| UserChat.UserChatView.CloseThread | src/pages/ProfilePage/tabs/chat/UserView.jsx:273 | the back arrow closes the open question and keeps everything else |
| UserChat.UserChatView.SendToAdmin | src/pages/ProfilePage/tabs/chat/UserView.jsx:159-215 | acts exactly when the button is enabled (not sending, some questions); success reports it and shows the reloaded list, or the reload's failure text in place of the report with the list kept; failure keeps the list; the input, the open thread and its messages are kept |
| DigitalCard.LevelName | src/pages/ProfilePage/tabs/DigitalCardTab.jsx:13-19 | levels 1 to 4, as a number or a string, get their titles; any other truthy value "Level v"; a falsy one "—" |
| DigitalCard.DisplayLevel | src/pages/ProfilePage/tabs/DigitalCardTab.jsx:66 | the level shown is never "—", and is level 1's title without a level |
| DigitalCard.DisplayId | src/pages/ProfilePage/tabs/DigitalCardTab.jsx:65 | at least ten characters ending in the id's text, zero-filled in front; "0000000001" without an id |
| DigitalCard.DisplayIdRoundTrip | src/pages/ProfilePage/tabs/DigitalCardTab.jsx:65 | the card number of a positive whole id is all digits and reads back as the id |
| DigitalCard.DisplayName | src/pages/ProfilePage/tabs/DigitalCardTab.jsx:61-64 | "Gregory Franks" with neither name; otherwise the joined name with no white space at either end |
| DigitalCard.DisplayNameFirstOnly | src/pages/ProfilePage/tabs/DigitalCardTab.jsx:61-64 | with only a first name, the name shown is that first name trimmed |
| DigitalCard.DisplayNameLastOnly | src/pages/ProfilePage/tabs/DigitalCardTab.jsx:61-64 | with only a last name, the name shown is that last name trimmed |
| DigitalCard.DisplayNameBoth | src/pages/ProfilePage/tabs/DigitalCardTab.jsx:61-64 | with both names present and unpadded, the name shown is "first last" |
| DigitalCard.Split | src/pages/ProfilePage/tabs/DigitalCardTab.jsx:69 | `split` gives at least one piece and no piece holds the separator |
| DigitalCard.JoinSplit | src/pages/ProfilePage/tabs/DigitalCardTab.jsx:69 | joining the pieces with the separator gives the text back |
| DigitalCard.Words | src/pages/ProfilePage/tabs/DigitalCardTab.jsx:69 | every word kept is non-empty and holds no space |
| DigitalCard.Initials | src/pages/ProfilePage/tabs/DigitalCardTab.jsx:68-76 | the upper-cased first letters of the first two words, or "GF" when there are none |
| DigitalCard.InitialsOfTwoWords | src/pages/ProfilePage/tabs/DigitalCardTab.jsx:68-76 | a two-word name has its two capitals as initials |
| DigitalCard.Background | src/pages/ProfilePage/tabs/DigitalCardTab.jsx:78-79 | the background is always one of levels 1 to 4: the parsed level when it is one of them, otherwise level 1 |
| DigitalCard.LevelAndBackgroundAgree | src/pages/ProfilePage/tabs/DigitalCardTab.jsx:66-79 | for a whole level 1 to 4, as a number or text, the title and the background agree |
| ProfileEditor.Set | src/pages/ProfilePage/tabs/ProfileTab.jsx:71 | the edited field takes the value and every other field is kept |
| ProfileEditor.FromProfile | src/pages/ProfilePage/tabs/ProfileTab.jsx:39-61 | the card level becomes text, and a missing profile gives the all-"" form |
| ProfileEditor.LoadNormalises | src/pages/ProfilePage/tabs/ProfileTab.jsx:46-61 | a text field keeps a truthy value and is "" otherwise, the year falls back to the birthday then "", nothing is left null |
| ProfileEditor.LoadRoundTrip | src/pages/ProfilePage/tabs/ProfileTab.jsx:46-61 | a form of texts is what loading a profile holding those values gives back |
| ProfileEditor.JsonSameIsEquivalence | src/pages/ProfilePage/tabs/ProfileTab.jsx:67 | serialised comparison is reflexive and symmetric |
| ProfileEditor.CleanWhenEqual | src/pages/ProfilePage/tabs/ProfileTab.jsx:66-69 | a form is never dirty against itself |
| ProfileEditor.EditDirtyIff | src/pages/ProfilePage/tabs/ProfileTab.jsx:66-71 | from a clean form, typing into a field makes it dirty exactly when the text differs from the loaded one |
| ProfileEditor.SaveCheck | src/pages/ProfilePage/tabs/ProfileTab.jsx:96-109 | the checks in order (names, year, token); each message appears exactly when its check is the first to fail |
| ProfileEditor.YearCheckOfWholeYear | src/pages/ProfilePage/tabs/ProfileTab.jsx:100 | a whole year, as a number or text, fails exactly outside 1900..2100 |
| ProfileEditor.UnreadableYearPasses | src/pages/ProfilePage/tabs/ProfileTab.jsx:100-123 | a year that is not a number passes the check and is sent as NaN |
| ProfileEditor.Body | src/pages/ProfilePage/tabs/ProfileTab.jsx:113-124 | the body repeats the form except the year, which is `Number(year)`, or 0 when empty |
| ProfileEditor.BodyOfWholeYear | src/pages/ProfilePage/tabs/ProfileTab.jsx:100-123 | a year in range typed as text passes and is sent as that number |
| ProfileEditor.Merged | src/pages/ProfilePage/tabs/ProfileTab.jsx:132 | the server's object when it sends one; otherwise the profile overwritten by every field of the body |
| ProfileEditor.Merge | src/pages/ProfilePage/tabs/ProfileTab.jsx:135-146 | each field takes the server value unless null or missing, then the form's; the card level as text |
| ProfileEditor.SilentServerKeepsBody | src/pages/ProfilePage/tabs/ProfileTab.jsx:123-146 | when the server answers without a profile, the form becomes the body that was sent |
| ProfileEditor.SaveFailureText | src/pages/ProfilePage/tabs/ProfileTab.jsx:157-161 | a failed save always shows a non-empty error line |
| ProfileEditor.Editor.constructor | src/pages/ProfilePage/tabs/ProfileTab.jsx:39-64 | the tab opens on the normalised profile, clean and not editing |
| ProfileEditor.Editor.Load | src/pages/ProfilePage/tabs/ProfileTab.jsx:46-64 | form and initial become the same normalised profile, so the form is clean |
| ProfileEditor.Editor.Change | src/pages/ProfilePage/tabs/ProfileTab.jsx:71 | only the edited field changes |
| ProfileEditor.Editor.StartEdit | src/pages/ProfilePage/tabs/ProfileTab.jsx:72 | edit mode starts with the message cleared, the form untouched |
| ProfileEditor.Editor.CancelEdit | src/pages/ProfilePage/tabs/ProfileTab.jsx:73 | the form goes back to the loaded values, edit mode ends, the form is clean |
| ProfileEditor.Editor.Save | src/pages/ProfilePage/tabs/ProfileTab.jsx:92-165 | no request exactly when a check fails; success merges the answer, leaves edit mode and is clean; failure keeps the form |
| TableSort.NextOrder | src/pages/ProfilePageAdmin/tabs/ProfileTab.jsx:87-88 | the new order is desc exactly when the same column was sorted asc |
| TableSort.SameColumnAlternates | src/pages/ProfilePageAdmin/tabs/RenewalTab.jsx:83-88 | clicks on one column alternate between asc and desc |
| TableSort.RejectIgnoresPadding | src/pages/ProfilePageAdmin/tabs/RenewalTab.jsx:211 | white space around a reason never changes whether it may be sent |
| AdminUsers.UsersOf | src/pages/ProfilePageAdmin/tabs/ProfileTab.jsx:67 | the rows of an array `content`, otherwise none |
| AdminUsers.TotalOf | src/pages/ProfilePageAdmin/tabs/ProfileTab.jsx:68 | the total is the body's when it is a finite number, and 0 for a missing body or any other value |
| AdminUsers.CodeChip | src/pages/ProfilePageAdmin/tabs/ProfileTab.jsx:114-119 | the chip of the first matching code; any other value a plain chip captioned `s \|\| fallback` |
| AdminUsers.UnknownCodeShownRaw | src/pages/ProfilePageAdmin/tabs/RenewalTab.jsx:80 | an unknown code is shown as it is, a missing one as the fallback, on a plain chip |
| UserTable.StatusChip | src/pages/ProfilePageAdmin/tabs/ProfileTab.jsx:114-119 | APPROVED, PENDING ("In progress") and REJECTED have fixed chips; others shown raw, a missing one "Unknown" |
| UserTable.SelectedId | src/pages/ProfilePageAdmin/tabs/ProfileTab.jsx:100 | with nothing selected, `selectedUser?.id` is undefined |
| UserTable.ConfirmDelete | src/pages/ProfilePageAdmin/tabs/ProfileTab.jsx:100 | exactly the rows whose id is not the selected id are kept, each as often as it occurred |
| UserTable.ConfirmDeleteAppend | src/pages/ProfilePageAdmin/tabs/ProfileTab.jsx:100 | the delete works on each part of the list in place, so the kept rows stay in their order |
| UserTable.ScreenAsWritten | src/pages/ProfilePageAdmin/tabs/ProfileTab.jsx:171 | the list (and with it the delete dialog) is drawn exactly when no user is selected |
| UserTable.DeleteAsWrittenRemovesNothing | src/pages/ProfilePageAdmin/tabs/ProfileTab.jsx:93-103 | as written, whenever the dialog is on screen no user is selected, and Delete removes no row that has an id |
| UserTable.DeleteClickHidesDialog | src/pages/ProfilePageAdmin/tabs/ProfileTab.jsx:93-96 | right after the delete icon is clicked, the details are drawn instead of the dialog |
| UserTable.Shown | src/pages/ProfilePageAdmin/tabs/ProfileTab.jsx:372-383 | corrected: the list stays drawn under an open dialog, whatever is selected |
| UserTable.DeleteRemovesClickedUser | src/pages/ProfilePageAdmin/tabs/ProfileTab.jsx:93-103 | corrected: the clicked user's dialog is shown and Delete removes every row with that id, the user too |
| UserTable.UserTableView.constructor | src/pages/ProfilePageAdmin/tabs/ProfileTab.jsx:27-41 | page 0, ten rows sorted by id ascending, nothing selected |
| UserTable.UserTableView.Load | src/pages/ProfilePageAdmin/tabs/ProfileTab.jsx:55-77 | success keeps the body's rows and total; failure empties the list, sets the total to 0 and the error line |
| UserTable.UserTableView.HandleSort | src/pages/ProfilePageAdmin/tabs/ProfileTab.jsx:84-91 | a column that is not sortable changes nothing; otherwise the order toggles, the column is the key, page 0 |
| UserTable.UserTableView.ChangeRowsPerPage | src/pages/ProfilePageAdmin/tabs/ProfileTab.jsx:112 | the size read with `parseInt`, and page 0 |
| UserTable.UserTableView.View | src/pages/ProfilePageAdmin/tabs/ProfileTab.jsx:109 | the user is selected and the list state kept |
| UserTable.UserTableView.Back | src/pages/ProfilePageAdmin/tabs/ProfileTab.jsx:110 | the selection is cleared and the list state kept |
| UserTable.UserTableView.DeleteClick | src/pages/ProfilePageAdmin/tabs/ProfileTab.jsx:93-96 | the user is selected and the dialog opened (shown, in the corrected screen) |
| UserTable.UserTableView.DeleteCancel | src/pages/ProfilePageAdmin/tabs/ProfileTab.jsx:105-107 | the dialog closes and the selection stays |
| UserTable.UserTableView.DeleteConfirm | src/pages/ProfilePageAdmin/tabs/ProfileTab.jsx:98-103 | the rows with the selected id leave the list, the dialog closes and the selection is cleared; nothing else changes |
| UpgradeTab.StatusChip | src/pages/ProfilePageAdmin/tabs/UpgradeTab.tsx:88-93 | the three application states have fixed chips; others shown raw, a missing one "Unknown" |
| UpgradeTab.CardStatusChip | src/pages/ProfilePageAdmin/tabs/UpgradeTab.tsx:95-102 | the five card states have fixed chips; others shown raw, a missing one "None" |
| UpgradeTab.ValidYearsOf | src/pages/ProfilePageAdmin/tabs/UpgradeTab.tsx:338 | an emptied validity field reads as 0 |
| UpgradeTab.ApprovePayload | src/pages/ProfilePageAdmin/tabs/UpgradeTab.tsx:348-351 | the card number trimmed and left out exactly when blank; the validity kept exactly when a positive number |
| UpgradeTab.TypedValidYears | src/pages/ProfilePageAdmin/tabs/UpgradeTab.tsx:338-350 | a typed whole number n is sent when positive and left out otherwise; an emptied field is left out |
| UpgradeTab.PayloadIgnoresPadding | src/pages/ProfilePageAdmin/tabs/UpgradeTab.tsx:349 | white space around the card number does not change the payload |
| UpgradeTab.UpgradeView.constructor | src/pages/ProfilePageAdmin/tabs/UpgradeTab.tsx:41-58 | page 0 sorted by id ascending, no dialogs, an empty card number and 2 years |
| UpgradeTab.UpgradeView.Load | src/pages/ProfilePageAdmin/tabs/UpgradeTab.tsx:62-81 | success keeps the body's rows and total; failure only sets the error line |
| UpgradeTab.UpgradeView.HandleSort | src/pages/ProfilePageAdmin/tabs/UpgradeTab.tsx:104-109 | the order toggles, the column becomes the key and the page goes back to 0 |
| UpgradeTab.UpgradeView.HeaderClick | src/pages/ProfilePageAdmin/tabs/UpgradeTab.tsx:410 | only a sortable column's header sorts, and the total, error, info and dialogs are kept; any other click changes nothing |
| UpgradeTab.UpgradeView.ChangeRowsPerPage | src/pages/ProfilePageAdmin/tabs/UpgradeTab.tsx:468 | the size read with `parseInt`, and page 0; the rows, total, sort, selection, error, info and dialogs are kept |
| UpgradeTab.UpgradeView.View | src/pages/ProfilePageAdmin/tabs/UpgradeTab.tsx:448 | the user's details are shown, the rest kept |
| UpgradeTab.UpgradeView.Back | src/pages/ProfilePageAdmin/tabs/UpgradeTab.tsx:190 | the list is shown again, the rest kept |
| UpgradeTab.UpgradeView.OpenCardReject | src/pages/ProfilePageAdmin/tabs/UpgradeTab.tsx:183-211 | the dialog opens only for an approved member whose card was requested |
| UpgradeTab.UpgradeView.OpenCardApprove | src/pages/ProfilePageAdmin/tabs/UpgradeTab.tsx:183-219 | the dialog opens only for an approved member whose card was requested |
| UpgradeTab.UpgradeView.EditCardNumber | src/pages/ProfilePageAdmin/tabs/UpgradeTab.tsx:331 | the card number field holds what was typed |
| UpgradeTab.UpgradeView.EditValidYears | src/pages/ProfilePageAdmin/tabs/UpgradeTab.tsx:338 | the validity holds the typed text read with `parseInt` |
| UpgradeTab.UpgradeView.EditCardRejectReason | src/pages/ProfilePageAdmin/tabs/UpgradeTab.tsx:303 | the reason field holds what was typed |
| UpgradeTab.UpgradeView.CancelCardReject | src/pages/ProfilePageAdmin/tabs/UpgradeTab.tsx:291-307 | the dialog closes and the reason typed so far is kept |
| UpgradeTab.UpgradeView.CancelCardApprove | src/pages/ProfilePageAdmin/tabs/UpgradeTab.tsx:319-344 | the dialog closes and its fields are kept |
| UpgradeTab.UpgradeView.ConfirmApproveCard | src/pages/ProfilePageAdmin/tabs/UpgradeTab.tsx:145-161 | posts the user's id and the normalised payload; success closes the dialog, resets "" and 2 years and leaves the details |
| UpgradeTab.UpgradeView.ConfirmRejectCard | src/pages/ProfilePageAdmin/tabs/UpgradeTab.tsx:163-178 | acts exactly when the reason is not blank; success closes the dialog, clears the reason and leaves the details |
| RenewalTab.StatusChip | src/pages/ProfilePageAdmin/tabs/RenewalTab.jsx:76-81 | the three application states have fixed chips; others shown raw, a missing one "Unknown" |
| RenewalTab.RenewalView.constructor | src/pages/ProfilePageAdmin/tabs/RenewalTab.jsx:27-46 | page 0 sorted by id ascending, no user open, no dialog |
| RenewalTab.RenewalView.Load | src/pages/ProfilePageAdmin/tabs/RenewalTab.jsx:49-69 | success keeps the body's rows and total; failure only sets the error line |
| RenewalTab.RenewalView.HandleSort | src/pages/ProfilePageAdmin/tabs/RenewalTab.jsx:83-88 | the order toggles, the column becomes the key and the page goes back to 0 |
| RenewalTab.RenewalView.HeaderClick | src/pages/ProfilePageAdmin/tabs/RenewalTab.jsx:272 | only a sortable column's header sorts, and the total, error, info and dialogs are kept; any other click changes nothing |
| RenewalTab.RenewalView.ChangeRowsPerPage | src/pages/ProfilePageAdmin/tabs/RenewalTab.jsx:329 | the size read with `parseInt`, and page 0; the rows, total, sort, selection, error, info and dialogs are kept |
| RenewalTab.RenewalView.View | src/pages/ProfilePageAdmin/tabs/RenewalTab.jsx:309 | the user's details are shown, the list kept |
| RenewalTab.RenewalView.Back | src/pages/ProfilePageAdmin/tabs/RenewalTab.jsx:133 | the list is shown again |
| RenewalTab.RenewalView.OpenRejectDialog | src/pages/ProfilePageAdmin/tabs/RenewalTab.jsx:107-157 | the dialog opens only for a pending application |
| RenewalTab.RenewalView.EditRejectReason | src/pages/ProfilePageAdmin/tabs/RenewalTab.jsx:204 | the reason field holds what was typed |
| RenewalTab.RenewalView.CancelReject | src/pages/ProfilePageAdmin/tabs/RenewalTab.jsx:192-208 | the dialog closes and the reason typed so far is kept |
| RenewalTab.RenewalView.Approve | src/pages/ProfilePageAdmin/tabs/RenewalTab.jsx:91-150 | acts exactly for a pending application and posts its id; success leaves the details, failure only shows the alert |
| RenewalTab.RenewalView.ConfirmReject | src/pages/ProfilePageAdmin/tabs/RenewalTab.jsx:109-125 | acts exactly when the reason is not blank; success closes and clears the dialog and leaves the details |

## Left out

- The message store behind the chat (threads, the to-do and history partition, unsent questions) runs on the server; only the client's requests and its handling of the answers are modelled.
- The network client and every request: each request is a parameter carrying its outcome. URLs, headers and tokens are not modelled, except the admin inbox's list URL.
- RegisterCard: sending and checking the verification code, the countdown timer, the registration request and its response handling (src/pages/register/RegisterCard.jsx:46-101, 182-227) are requests and timers.
- RegisterCard: the browser's `required` check is not modelled. It blocks `onRegister` while any of these is empty: first and last name, year of birth, card level, street, suburb, state, postcode, e-mail, verification code, photo, and the first experience row's three inputs. RegisterCard.OnRegister is stated for every form, including those the browser would stop.
- RegisterCard.RegisterForm.ChangeExperience: the source copies the array but assigns into the shared row object; the model replaces the row by value, so aliasing between renders is not captured.
- NotificationCompose: the Quill editor, the file picker, the attachment sizes shown in KB and the navigation back after a send are rendering, timers and browser objects. The initial level selection is not modelled.
- NotificationTable: the XLSX sheet and file writing, the timestamp in the file name and the locale rendering of times are library and `Date` work (the time text is a parameter of ExcelCells).
- NotificationTable: `fetchNotifications`, the table's own page request, copies the response into the table state and is a request; `handleChangePage` and the search and filter inputs only set a state field each.
- NotificationTable.FetchAll: `data.last` is modelled as a boolean, so a non-boolean `last` is not captured. FetchAll models the loop as intended, with the i-th request getting page i; the server is a finite list of page answers followed by empty pages, so the loop always ends. The as-written loop is under "## Findings".
- AdminChat: the double load of a tab switch (the click and the effect on `tab` both load page 0) and the order in which answers arrive are async orchestration. The model loads once.
- AdminChat: a page record's `content` is assumed to be an array.
- UserChat: the loading and sending flags around awaits are modelled only through the disabled buttons; the reload after a success is passed in as its own outcome.
- UserChat.UserChatView.OpenThread: React compares thread objects by identity, and the model compares them by value. After the list is reloaded, a click on an equal but new object of the open question reloads its messages in the page, while the model changes nothing.
- UserChat.ToastSeverity: a server message containing "successfully" turns a failure toast green. FailureToastsAreRed states this as its precondition.
- UserChat: closing the toast, dates in the thread list and the admin-side chat of the member page (src/pages/ProfilePageAdmin/tabs/chat/UserView.jsx) are rendering, or not part of this model.
- DigitalCard: the validity date (`fmtDate`, `defaultValidTo`), the photo and the profile request are `Date` work, assets and requests.
- ProfileEditor: `onUpdated` only hands the merged profile to the parent page, which Save returns. A non-object answer is modelled as no profile.
- ProfileEditor: the `saving` flag is a parameter of SaveEnabled, and Save models a click with nothing in flight.
- UpgradeTab: the user approve and reject handlers, and the user reject dialog (src/pages/ProfilePageAdmin/tabs/UpgradeTab.tsx:112-142, 263-287), are reached by no button. The action box that held them is empty, so they are left out.
- UserTable: `refreshRow` and the approve and reject handlers (src/pages/ProfilePageAdmin/tabs/ProfileTab.jsx:122-168) are reached by no button and are left out.
- The admin tables: the search field, `handleChangePage`, the request parameters and the reload after an approve or reject (modelled as a separate Load) are requests or single field writes.
- The admin tables: dismissing the info alert is not modelled.
- The admin tables' `submitting` flag is a parameter of the gating predicates; the handler methods model a click with nothing in flight.
- Numbers: `Number(...)` is modelled for optionally signed decimals with an optional fraction. Exponents, hexadecimal, `Infinity` and floating-point rounding read as NaN or are exact here.
- NumberText: `String(x)` is always written as a plain decimal, while JavaScript switches to exponent form at 1e21 and above and below 1e-6 ("2e+21", "1e-7"). So values that large or small print differently, and `parseInt` of their text (the card background) differs too.
- Strings are sequences of code points, while JavaScript counts UTF-16 units for `length`, `substring` and `padStart`. Upper-casing maps ASCII letters and the two non-ASCII letters whose capital is ASCII; other Unicode case mappings are not modelled.
- ProfileEditor.JsonSame: `JSON.stringify` string escaping is not modelled. Two strings serialise alike exactly when they are equal, which escaping preserves.

## Findings

| source | as written | input that shows it | evidently intended | confidence | as-written member | corrected member |
|---|---|---|---|---|---|---|
| src/pages/ProfilePageAdmin/tabs/ProfileTab.jsx:93-103 | the delete icon selects the user and opens the dialog, but a selected user switches the tab to the details, and the dialog is drawn only with the list. It appears only after Back, which clears the selection, and Delete then filters by an undefined id, removing nothing | click the delete icon of user u, then Back, then Delete | the dialog shows over the list and Delete removes u | not executed | UserTable.ScreenAsWritten, UserTable.DeleteAsWrittenRemovesNothing, UserTable.DeleteClickHidesDialog | UserTable.Shown, UserTable.DeleteRemovesClickedUser |
| src/pages/ProfilePageAdmin/tabs/DigitalCardTab.jsx:140-145 | the export passes page, size, type and sort as the options of `api.get`, which forwards only the method, body, headers, token and timeout, so every iteration requests the same first page | a first answer with rows whose `last` is not true | the i-th request gets page i, and the export holds pages 0..k in order, k being the first page marked last or empty | not executed | NotificationTable.ConstantAnswerNeverEnds | NotificationTable.GatheredIsConcatenation |
| src/pages/ProfilePage/tabs/chat/UserView.jsx:56 | `setMessages(res \|\| [])` keeps a `{content: [...]}` page, which the admin side of the same endpoint expects, as the object itself, and the thread view's `messages.map` then throws | a thread whose messages come back as `{content: [m]}` | the page's `content` is shown, as the admin side reads it | not executed | UserChat.PageBodyNotAList | UserChat.MessagesOfAgrees, UserChat.UserChatView.LoadThreadMessages |
