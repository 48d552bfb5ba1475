# MiniTrello access control, boards and request guards in Dafny

MiniTrello is a Django board/list/card organiser. This project models the
parts of it that make decisions:

- who may see or change a board, a list or a card (`apps/boards/permissions.py`
  and the view mixins in `apps/boards/mixins.py`);
- the HTMX create, patch and delete handlers and the query helpers of
  `apps/boards/views.py`, with the cascades of `apps/boards/models.py`;
- the serializer validators and create of `apps/boards/serializers.py`, and
  `BoardForm.clean_title`;
- invitations: their statuses, uniqueness rules, text form and the
  `clean_email` check;
- sign-in by username or email (`apps/accounts/auth_backend.py`) and the
  superuser gate of the playground;
- the fixed-window rate limiter, the `rate_limit` decorator and the
  sensitive-operation check (`config/rate_limits.py`), and the two
  middlewares of `config/middleware.py`;
- the template rewriting of the `i18n` management command: the
  language-name table, the load-tag insertion and the control flow of the
  string wrapping, with each regular-expression rewrite a parameter.

The database is a value, `BoardModels.Db`, with one map per table (users,
boards, lists, cards, memberships, invitations). Handlers that write to it
are methods on `BoardModels.Repository`, a class with one map field per
table and a fresh-key counter. Its `Valid()` invariant holds the foreign
keys and the invitation uniqueness rules. Permission checks are functions of
a `Db`. Their answers are an `Outcome`:

- `Allow(value)`: the check passed;
- `NotFound`: `Http404`;
- `Denied`: `PermissionDenied`;
- `RedirectToLogin`: the login redirect;
- `BadRequest`: an explicit 400 response;
- `Invalid`: `ValidationError`;
- `Crash`: an exception nobody catches, such as `DoesNotExist` or an
  attribute read on `None`.

A requester is `Anonymous` or `SignedIn(id)`. `.first()` is the lowest key.
URL and POST values are `Option`s, and Python's falsiness is explicit:
`Given(k)` means a kwarg that is present and not 0, and `Present(s)` means a
POST text that is present and not empty.

Files (one module each): `common.dfy`, `pystr.dfy` (the Python string
operations the source uses), `models.dfy`, `permissions.dfy`, `mixins.dfy`,
`views.dfy`, `serializers.dfy`, `forms.dfy`, `invitations.dfy`,
`playground.dfy`, `auth.dfy`, `ratelimits.dfy`, `middleware.dfy`,
`i18n.dfy`.

Where the code and its documentation or tests disagree, the model follows
the code:

- `is_owner_or_member` looks up the card or the list with `objects.get`. A
  missing row raises `DoesNotExist`, which none of the mixins catches. So in
  `ListAccess`, `CardAccess`, `GetUserList` and `GetUserCard` a missing card
  or list is `Crash` (a server error), not 404. A missing board is 404.
- `permissions.py` lets the board's owner in with no membership row. The
  helpers of `views.py` and `ListSerializer.validate_board` ask for an active
  membership only. `OwnerWithoutMembershipDiverges` and
  `OwnershipAloneIsNotMembership` show the two disagreeing.
- `can_modify_board` reads `.role` of the first active membership before its
  `None` guard. For a non-owner without one it crashes (`Crash`) instead of
  returning False.
- Email matching in `clean_email` and in sign-in is exact: the code does not
  fold case.
- `config/middleware.py` imports `HttpResponseTooManyRequests`, which Django
  does not define. The model gives the 429 the code evidently means, and
  otherwise follows the code.
- `CardSerializer` lists an `assignee` field that the `Card` model lacks. The
  validator is modelled as written, with the assignee as an optional key.
- `get_board_lists` builds each card query with `select_related("assignee")`.
  `Card` has no such field, so evaluating any list's cards raises FieldError.
  The copy in `permissions.py` prefetches `cards`, but `Card.list` has no
  `related_name`, so that fails too. `BoardViews.GetBoardLists` models the
  query the code evidently means: each list's cards by (priority, order).
- The lookups of `views.py` (`get_user_board`, `get_user_list`,
  `get_user_card`) join through the memberships without `distinct()`. Nothing
  stops a user from holding two active memberships on one board. Then the
  join has two rows, `get` raises MultipleObjectsReturned, and the request
  fails (`Crash`). `DuplicateMembershipsCrash` shows this. Every handler built
  on these lookups passes the crash on.
- `HTMXCardUpdateView.patch` reads its fields from `request.POST`. Django fills
  `request.POST` only for a POST, so under PATCH every field test is false,
  and the handler only saves the card back unchanged
  (`UpdateCardAsWritten`). `UpdateCard`, with `CardPatch` holding the fields
  of the request body, is the behaviour the code evidently means. The patch
  lemmas and `CardMoveIgnoresTargetBoard` are about that intended behaviour.
  See "## Findings".
- The `Membership` model is not in `apps/boards/models.py`. It is
  reconstructed from its uses: user, board, role, `is_active` (True by
  default), `can_edit`, `can_comment` and `can_invite`.
- `views.py` repeats `get_next_order` and `get_board_lists` from
  `permissions.py`, so one model serves both.
- The blocktrans body built by `handle_template_variables` writes each
  variable with single braces (`{name}`), as the f-string does.

## Model

| member | source | states |
|---|---|---|
| BoardModels.ParseColor | apps/boards/models.py:6-14 | a stored colour value parses to the colour whose code it is; a value of no colour parses to None |
| BoardModels.ParsePriority | apps/boards/models.py:36-45 | a stored priority value parses to the choice whose code it is; others to None |
| BoardModels.WithoutBoards | apps/boards/models.py:16-32 | deleting boards removes exactly their lists, those lists' cards, their memberships and their invitations, keeps every other row unchanged, and keeps the foreign keys whole |
| BoardModels.WithoutList | apps/boards/models.py:29-48 | deleting a list removes exactly it and its cards; every remaining list and card row is unchanged, and every other table stays as it was |
| BoardModels.WithoutUser | apps/boards/models.py:16 | deleting a user removes exactly the user, the boards they own with their lists, cards, memberships and invitations, the user's own memberships and the invitations they sent; every remaining row is unchanged and the foreign keys stay whole |
| BoardModels.Repository.constructor | apps/boards/models.py:5-53 | an empty store over the given users satisfies the invariant |
| BoardModels.Repository.InsertBoard | apps/boards/models.py:5-21 | adds exactly one board under a fresh key and keeps the invariant |
| BoardModels.Repository.InsertMembership | apps/boards/views.py:146-153 | adds exactly one membership under a fresh key and keeps the invariant |
| BoardModels.Repository.CreateList | apps/boards/models.py:27-32 | adds exactly one list under a fresh key and keeps the invariant |
| BoardModels.Repository.CreateCard | apps/boards/models.py:35-53 | adds exactly one card under a fresh key and keeps the invariant |
| BoardModels.Repository.SaveCard | apps/boards/views.py:229 | replaces one card's row and nothing else |
| BoardModels.Repository.DeleteBoard | apps/boards/views.py:239 | the new state is the cascade `WithoutBoards` of the old one |
| BoardModels.Repository.DeleteList | apps/boards/views.py:248 | the new state is the cascade `WithoutList` of the old one |
| BoardModels.Repository.DeleteCard | apps/boards/views.py:257 | removes one card and nothing else |
| BoardModels.Repository.DeleteUser | apps/boards/models.py:16 | the new state is the cascade `WithoutUser` of the old one |
| BoardModels.Repository.InsertInvitation | apps/invitations/models.py:12-29 | fails (IntegrityError) exactly when the token or the (email, board) pair is taken; otherwise adds one pending invitation under a fresh key |
| BoardModels.ActiveMemberships | apps/boards/permissions.py:75 | the active memberships of a user on a board; non-empty exactly when the user is an active member |
| BoardPermissions.BoardOf | apps/boards/permissions.py:89-104 | a card resolves through its list to that list's board, a list to its board, a board to itself; a missing row resolves to nothing |
| BoardPermissions.IsOwnerOrMember | apps/boards/permissions.py:79-109 | anonymous is refused before any lookup; no model class is ValidationError; an unknown class is refused; a missing object crashes; otherwise allowed exactly for the owner or an active member of the resolved board; never returns False |
| BoardPermissions.AccessFollowsContainers | apps/boards/permissions.py:89-100 | in a consistent store the verdict for a card is the verdict for its list, and that is the verdict for the list's board |
| BoardPermissions.GetUserBoard | apps/boards/permissions.py:30-36 | 404 exactly for a missing board; the board exactly for its owner or an active member; PermissionDenied otherwise, so the False branch is never taken |
| BoardPermissions.GetUserList | apps/boards/permissions.py:55-64 | the list only when it belongs to the given board and the access check passes; a missing list crashes |
| BoardPermissions.ListOfOtherBoardNotFound | apps/boards/permissions.py:61-62 | a list on another board is 404 even for a member of that other board |
| BoardPermissions.CanModifyBoard | apps/boards/permissions.py:66-77 | true for the owner with no membership; for anyone else it crashes without an active membership; true only through an Owner or Admin membership |
| BoardPermissions.CanModifyByRole | apps/boards/permissions.py:75-77 | when all active memberships are Owner/Admin the answer is true, when none is it is false |
| BoardPermissions.GetUserCard | apps/boards/permissions.py:113-124 | a card id of 0 is 404 after the access check; a missing card crashes; the card is returned exactly when the access check on its board passes |
| BoardPermissions.NextOrder | apps/boards/permissions.py:127-132 | one above every existing order, 1 for an empty container, and one above some existing order otherwise (`max + 1`) |
| BoardMixins.HideDenial | apps/boards/mixins.py:23-27 | 404 and PermissionDenied both become 404; everything else is unchanged |
| BoardMixins.BoardAccess | apps/boards/mixins.py:14-29 | missing id is 404; anonymous is PermissionDenied; passes exactly for the owner or an active member; any other refusal is 404 |
| BoardMixins.BoardAccessView.Dispatch | apps/boards/mixins.py:14-29 | answers as `BoardAccess` and stores the board on the view only when it passes |
| BoardMixins.BoardModify | apps/boards/mixins.py:37-41 | refused as `BoardAccess` refuses; after access the handler runs, and its response is kept exactly when `can_modify_board` on the state after it is true; when that check is false the answer is PermissionDenied, and when it crashes the request crashes |
| BoardMixins.ModifyRefusedAfterHandler | apps/boards/mixins.py:38-41 | a Member or Viewer passes access, the handler runs, and the response is PermissionDenied |
| BoardMixins.ModifyCrashesWhenHandlerDropsMembership | apps/boards/mixins.py:38-41 | when the handler removes the requester's last active membership, the modify check crashes |
| BoardMixins.BoardModifyView.Dispatch | apps/boards/mixins.py:37-41 | reports whether the handler ran and answers as `BoardModify` |
| BoardMixins.ListAccess | apps/boards/mixins.py:49-66 | missing ids are 404; anonymous is PermissionDenied; a missing list crashes; passes exactly when both board and list checks pass |
| BoardMixins.ListAccessView.Dispatch | apps/boards/mixins.py:49-66 | answers as `ListAccess`; sets the board only after the board check passes and the list only when both pass |
| BoardMixins.CardAccess | apps/boards/mixins.py:74-89 | missing id is 404; anonymous is PermissionDenied; a missing card crashes; passes exactly for the owner or an active member of the card's board |
| BoardMixins.CardAccessView.Dispatch | apps/boards/mixins.py:74-89 | answers as `CardAccess` and stores the card only when it passes |
| BoardMixins.BoardOwner | apps/boards/mixins.py:96-109 | missing id is 404; anonymous is PermissionDenied; passes exactly for the board's owner; a missing board or another user is 404 |
| BoardMixins.BoardOwnerView.Dispatch | apps/boards/mixins.py:96-109 | answers as `BoardOwner` and stores the board only when it passes |
| BoardMixins.MissingIdIsNotFound | apps/boards/mixins.py:15-20 | every mixin checks the id before authentication: a missing or zero id is 404 even for an anonymous requester |
| BoardMixins.AdminIsNotOwner | apps/boards/mixins.py:96-109 | an active Admin passes board access but not the owner check |
| BoardViews.UserBoards | apps/boards/views.py:19-26 | exactly the boards the user is an active member of |
| BoardViews.UserBoardsAreFound | apps/boards/views.py:19-36 | the board list holds exactly the boards `get_user_board` does not answer 404 for; each is admitted by permissions.py; an owner without an active membership is not listed |
| BoardViews.UserBoard | apps/boards/views.py:29-36 | 404 for a missing board or no active membership; the board for exactly one active membership of the user; a crash (MultipleObjectsReturned) for several |
| BoardViews.UserList | apps/boards/views.py:58-65 | 404 for a missing list; otherwise the list exactly when `get_user_board` finds its board, and a crash exactly when that lookup crashes |
| BoardViews.UserCard | apps/boards/views.py:68-75 | 404 for a missing card; otherwise the card exactly when `get_user_list` finds its list, and a crash exactly when that lookup crashes |
| BoardViews.DuplicateMembershipsCrash | apps/boards/views.py:29-65 | two active memberships of one user on one board make the board and list lookups of views.py crash, while the check of permissions.py lets the user in |
| BoardViews.OwnerWithoutMembershipDiverges | apps/boards/views.py:29-36 | an owner without a membership passes `get_user_board` of permissions.py and the board mixin, but gets 404 from views.py |
| BoardViews.ActiveMemberPassesBoth | apps/boards/views.py:29-36 | whoever the views.py helper admits is admitted by permissions.py too |
| BoardViews.OrderBy | apps/boards/permissions.py:38-52 | sorted by the given sort key, each id exactly once (a permutation); rows with equal keys may come in any order |
| BoardViews.GetBoardLists | apps/boards/views.py:39-55 | the board's lists, each once, sorted by order, each with its cards, each once, sorted by (priority, order) |
| BoardViews.OwnedBoardsAfterInsert | apps/boards/views.py:131-143 | a new board adds one to its owner's count and changes nobody else's |
| BoardViews.CreateKeepsBoardLimit | apps/boards/views.py:131-143 | creating only under the limit keeps every user at or below it |
| BoardViews.CreateBoard | apps/boards/views.py:122-155 | anonymous is redirected; 400 without a title or at the limit; otherwise one board with defaults "" and "blue" and one active Owner membership, nothing else changes |
| BoardViews.CreateList | apps/boards/views.py:161-179 | 400 without board or title; otherwise the refusal of `get_user_board` (404, or a crash on duplicate memberships) and no change; otherwise one list placed after all lists of the board |
| BoardViews.CreateCard | apps/boards/views.py:185-207 | 400 without list or title; otherwise the refusal of `get_user_list` (404, or a crash) and no change; otherwise one card (priority 50 by default) after all cards of the list |
| BoardViews.Patched | apps/boards/views.py:217-227 | the intended field update: an empty patch leaves the card as it was, and the card moves only to a list the patch names |
| BoardViews.PatchTouchesOnlyGivenFields | apps/boards/views.py:217-227 | intended behaviour: each field changes exactly when the patch carries it; an empty patch changes nothing |
| BoardViews.PatchIdempotent | apps/boards/views.py:217-227 | intended behaviour: applying the same patch twice is applying it once |
| BoardViews.CardUpdateOutcome | apps/boards/views.py:213-231 | saved exactly when `get_user_card` finds the card and a given target list exists; otherwise the lookup's 404 or crash, or 404 for the missing target list |
| BoardViews.CardMoveIgnoresTargetBoard | apps/boards/views.py:223-225 | intended behaviour: a body naming a list moves the card into a list of a board the requester cannot see; as written no card moves (`UpdateCardAsWritten`) |
| BoardViews.UpdateCard | apps/boards/views.py:213-231 | intended behaviour, with the body's fields: answers as `CardUpdateOutcome`; on success the card becomes the patched card and nothing else changes |
| BoardViews.UpdateCardAsWritten | apps/boards/views.py:213-231 | as written, with `request.POST` empty under PATCH: answers as `CardUpdateOutcome` with no fields, and the database stays exactly as it was |
| BoardViews.DeleteBoard | apps/boards/views.py:237-240 | only the owner deletes; the store becomes the cascade of that board; anyone else gets 404 and nothing changes |
| BoardViews.DeleteList | apps/boards/views.py:246-249 | deletes exactly when `get_user_list` finds the list, with its cards; it crashes exactly when that lookup does; no change otherwise |
| BoardViews.DeleteCard | apps/boards/views.py:255-258 | deletes exactly when `get_user_card` finds the card; it crashes exactly when that lookup does; no change otherwise |
| BoardViews.CascadesLeaveNoOrphans | apps/boards/models.py:29-48 | after a board or list deletion no list, card or invitation points at a removed row |
| BoardViews.UserDeletionTakesOwnedBoards | apps/boards/models.py:16 | after a user is deleted none of the remaining boards is theirs |
| BoardSerializers.ValidateBoard | apps/boards/serializers.py:42-55 | only a POST by a user owning the limit or more is refused; otherwise the attributes pass unchanged |
| BoardSerializers.CreateBoard | apps/boards/serializers.py:58-70 | one board owned by the requester and one Owner membership with every right, nothing else |
| BoardSerializers.CreatorBecomesActiveOwner | apps/boards/serializers.py:62-69 | the creator's membership makes them an active member with role Owner and every right |
| BoardSerializers.ValidateListBoard | apps/boards/serializers.py:86-93 | the board passes exactly when the requester is an active member |
| BoardSerializers.OwnershipAloneIsNotMembership | apps/boards/serializers.py:86-93 | an owner without an active membership is refused |
| BoardSerializers.ValidateCard | apps/boards/serializers.py:113-131 | a `list` key naming no list is a ValidationError (DRF resolves the field before `validate`); no target list passes; otherwise both the requester and a given assignee must be active members of the list's board |
| BoardForms.CleanTitle | apps/boards/forms.py:11-15 | stores the stripped title back, and accepts it exactly when at least 4 characters remain |
| BoardForms.AcceptedTitleShape | apps/boards/forms.py:11-15 | an accepted title has 4 or more characters and no whitespace at either end |
| BoardForms.CleanTitleIdempotent | apps/boards/forms.py:11-15 | cleaning an accepted title again accepts it unchanged |
| BoardForms.WhitespaceTitleRejected | apps/boards/forms.py:12-14 | an all-whitespace title is rejected and stored as "" |
| BoardForms.UntrimmedTitle | apps/boards/forms.py:12-15 | a title without surrounding whitespace is accepted exactly when it has at least 4 characters |
| BoardForms.EmptyTitleRejected | apps/boards/forms.py:13-14 | the empty title is rejected |
| BoardForms.ShortTitleRejected | apps/boards/forms.py:13-14 | a two-character title is rejected |
| BoardForms.SampleTitleAccepted | apps/boards/forms.py:13-15 | "Test Board" is accepted as it is |
| Invitations.ParseStatus | apps/invitations/models.py:6-10 | a stored status value parses to the status whose code it is; others to None |
| Invitations.DefaultIsPending | apps/invitations/models.py:24 | the default status is stored as "pending" |
| Invitations.InvitationText | apps/invitations/models.py:33-34 | the text begins with "Invitation to " and the address |
| Invitations.InvitationTextMentions | apps/invitations/models.py:33-34 | the text contains the address, the board's title and the inviter's username |
| Invitations.CleanEmail | apps/invitations/forms.py:13-20 | refused exactly when a user with that exact email holds a membership (active or not) on the board; otherwise the address is returned |
| Invitations.InactiveMembershipBlocks | apps/invitations/forms.py:18 | an inactive membership blocks as well |
| Invitations.OtherBoardsNeverBlock | apps/invitations/forms.py:18 | the verdict depends only on this board's memberships |
| Playground.SuperuserRequired | apps/playground/permissions.py:11-16 | anonymous is redirected to login, a non-superuser refused, a superuser reaches the view |
| AuthBackend.Candidates | apps/accounts/auth_backend.py:18-29 | the users whose username or email is exactly the login string, and no others |
| AuthBackend.Authenticate | apps/accounts/auth_backend.py:12-33 | None without both credentials or a match; otherwise the first matching user, and only when it has the password and may sign in |
| AuthBackend.OnlyFirstCandidateTried | apps/accounts/auth_backend.py:25-31 | when the first match rejects the password, no other match is tried |
| AuthBackend.AtMostTwoCandidates | apps/accounts/models.py:20-21 | with unique usernames and emails a login matches at most two users |
| RateLimits.CacheKey | config/rate_limits.py:25-27 | the key is the prefix, the identifier, then the decimal window number, separated by colons |
| RateLimits.CacheKeyWindows | config/rate_limits.py:25-27 | two calls share a counter key exactly when they fall in the same window |
| RateLimits.IsAllowed | config/rate_limits.py:29-37 | reads the count (0 when absent) and allows exactly when it is below the limit; writes nothing |
| RateLimits.Cache.Increment | config/rate_limits.py:39-47 | stores and returns the previous count plus one under the same key; no other key changes |
| RateLimits.Cache.CheckSensitiveOperation | config/rate_limits.py:90-114 | answers and updates the counters as `SensitiveCheck` |
| RateLimits.SensitiveCheck | config/rate_limits.py:103-114 | the key is `user:<id>:operation:<name>` under "sensitive_operation"; the counter is bumped exactly when the call is allowed, and the answer carries the count before the bump |
| RateLimits.SensitiveRunBounded | config/rate_limits.py:110-112 | within one window the counter rises by exactly the number of allowed calls and never passes the limit; from no counter at most `max_operations` calls are allowed |
| RateLimits.RateLimitedView | config/rate_limits.py:56-85 | 403 without calling the view exactly when the count has reached the limit; otherwise the view's response with Limit, Remaining = max(0, limit - count - 1) and Reset = now + window, keeping its other headers with their values |
| RateLimits.RateLimitedViewNeverRefusesAlone | config/rate_limits.py:72-85 | the decorator never increments its counter, so with nobody else writing it a positive limit never refuses |
| Middleware.RateLimitGate | config/middleware.py:26-70 | passes unchecked exactly under DEBUG, with limiting off, or for an exempt address, user or path; otherwise 429 exactly when the count has reached 100; a counted pass carries Limit 100, Remaining max(0, 99 - count) and Reset now + 60 |
| Middleware.ProcessRequest | config/middleware.py:26-70 | answers 429 as the gate does, stores the headers on the request only on a counted pass, and never writes the counter |
| Middleware.ProcessResponse | config/middleware.py:72-80 | copies the three headers onto the response when the request carries them and leaves it alone otherwise |
| Middleware.CountedResponseHeaders | config/middleware.py:66-80 | a counted response ends with Limit 100, Remaining max(0, 99 - count) and Reset now + 60, keeping its other headers with their values |
| Middleware.DebugNeverLimits | config/middleware.py:30-31 | with DEBUG on every request passes unchecked |
| Middleware.StaticPathsNeverLimited | config/middleware.py:45-48 | a path under /static/ is never refused |
| Middleware.UnwrittenCounterNeverRefuses | config/middleware.py:57-63 | the middleware never increments its counter, so with nobody else writing it nothing is refused |
| Middleware.Screen | config/middleware.py:102-124 | an innocent request changes nothing; a suspicious one bumps its address's counter once and is refused exactly when more than 3 attempts came before |
| Middleware.ScreenRequest | config/middleware.py:97-124 | with DEBUG on nothing happens; otherwise counters and answer are as `Screen` says, the pattern loop stopping at the first match |
| Middleware.FifthSuspiciousRequestBlocked | config/middleware.py:115-122 | from no counter, the first four suspicious requests pass and every later one is refused; the counter ends at the number of requests (while the counter does not expire: each request less than 300 seconds after the previous one) |
| Middleware.InnocentRequestsUntouched | config/middleware.py:108-124 | requests matching no pattern change no counter and are never refused |
| I18n.GetLanguageName | apps/accounts/management/commands/i18n.py:196-212 | the table's name for the 12 known codes, the code upper-cased otherwise |
| I18n.FallbackNameIsStable | apps/accounts/management/commands/i18n.py:212 | the fallback name is never a known code, so looking it up again gives it back |
| I18n.ProcessLines | apps/accounts/management/commands/i18n.py:279-307 | a template with the load tag among its first ten lines keeps its lines; otherwise lines are only added, at most one in front or one after each line |
| I18n.BuildProcessedLines | apps/accounts/management/commands/i18n.py:279-307 | the loop builds exactly the line list `ProcessLines` describes |
| I18n.LoadedTemplateKeepsLines | apps/accounts/management/commands/i18n.py:283-307 | a load tag in any of the first ten lines leaves the lines unchanged |
| I18n.StandaloneTemplateGetsLoadTag | apps/accounts/management/commands/i18n.py:300-305 | without extends on line one and without a load tag, the tag becomes the new first line |
| I18n.ExtendsBeforeOtherLoadGetsNoTag | apps/accounts/management/commands/i18n.py:286-297 | a template extending on line one, with no i18n load and every extends line followed by a `{% load` line, keeps its lines and gets no load tag |
| I18n.OneLineExtendsGetsNoTag | apps/accounts/management/commands/i18n.py:286-297 | a one-line extends template gets no tag |
| I18n.ProcessLinesKeepsLines | apps/accounts/management/commands/i18n.py:286-307 | the original lines are an in-order subsequence of the result, and every added line is the load tag |
| I18n.HandleTemplateVariables | apps/accounts/management/commands/i18n.py:393-422 | each match is rewritten by `fix_trans_tags`; text whose trans tags mention no template variable comes back as it was |
| I18n.FixTransTag | apps/accounts/management/commands/i18n.py:399-420 | plain text and variable-free tags are returned as matched; a tag with a variable becomes a blocktrans tag |
| I18n.WrapTranslatable | apps/accounts/management/commands/i18n.py:384-391 | the input comes back unless a regular pattern changed something or the final text loads i18n, in which case the final text does |
| I18n.WrapStrings | apps/accounts/management/commands/i18n.py:315-391 | the three rounds over the pattern list, modal pattern last, give exactly `WrapTranslatable` |
| I18n.ModalChangesAloneDiscarded | apps/accounts/management/commands/i18n.py:364-382 | when no regular pattern changes anything, the modal pattern's changes are thrown away unless the result loads i18n |
| I18n.ProcessTemplate | apps/accounts/management/commands/i18n.py:277-313 | splits, inserts the load tag, joins and wraps, as `ProcessTemplateContent` |
| I18n.LoadedTemplateUnchanged | apps/accounts/management/commands/i18n.py:277-313 | with rewrites that change nothing, a template already loading i18n comes back unchanged |
| PyStr.Strip | apps/boards/forms.py:12 | `str.strip`: a slice of the input with only whitespace cut from either end, and no whitespace left at either end |
| PyStr.JoinSplit | apps/accounts/management/commands/i18n.py:279-310 | joining the lines of a split on "\n" gives the text back |
| PyStr.IntToStringInjective | config/rate_limits.py:27 | distinct window numbers print differently |

## Findings

| source | as written | input that shows it | evidently intended | confidence | as-written member | corrected member |
|---|---|---|---|---|---|---|
| apps/boards/views.py:217-227 | the PATCH handler tests its fields in `request.POST`, which Django leaves empty for any method but POST | a PATCH to the card update URL with body `title=New`, by an active member of the card's board | the card's title becomes "New" | high; not executed | BoardViews.UpdateCardAsWritten | BoardViews.UpdateCard |

## Left out

- I/O is not modelled: e-mail sending, logging calls, template rendering, HTMX partial responses, and the file walking, reading and writing of the `i18n` command. Logging calls are no-ops, except the one at `apps/boards/permissions.py:76`, which crashes before it logs.
- The settings-file rewrites and language-file setup of the `i18n` command, `find_html_files` and `process_templates` are file I/O.
- Regular expressions: each pattern of `wrap_translatable_strings`, the trans-tag scanner and its `re.split` are parameters (`I18n.Patterns`, `I18n.Segment`), not modelled text matching.
- Non-numeric ids or priorities in POST data (`int()` raising ValueError) are not modelled. A POST id is present or missing.
- Serializers and forms with no request or an anonymous request user: the validators take the user as an optional key.
- Cache expiry (the TTL passed to `cache.set`) is not modelled. A window counter lives while its window number is current. The suspicious-request counter (`config/middleware.py:119`) has no window. Its 300-second TTL is renewed on each set, so the model's counter stands for one that never lapses. The model holds for requests less than 300 seconds apart.
- Middleware.FifthSuspiciousRequestBlocked: "every later one is refused" holds only while the counter has not expired, that is for suspicious requests from one address less than 300 seconds apart.
- `RateLimits.Cache.CheckSensitiveOperation`: `is_allowed` and `increment` each read the clock; the model uses one time for both, so a call straddling a window boundary is not modelled.
- `RateLimits.RateLimitedView`: the wrapper reads the clock again after the view runs, for X-RateLimit-Reset (`config/rate_limits.py:82`), while the key used the earlier reading; the model uses one time for both, so a view that runs across a second boundary is not modelled.
- Concurrency: `select_for_update` and `transaction.atomic` are treated as making each operation atomic.
- Password hashing: `check_password` is equality with the stored value.
- `PyStr.Lower` and `PyStr.Upper` map ASCII letters only, not the Unicode case tables.
- Time is whole seconds (`int(time.time())`). Flooring first gives the same window numbers and reset times as the float arithmetic.
- `Board.__str__` returns the nonexistent `self.name`, and `models.ChoiceField` does not exist. Colour and priority are kept as their stored strings and integers, with the choice tables as enumerations.
- Features seen only in tests are not in the source and are not modelled: card moves with reindexing, member management, invitation acceptance and expiry, and the permission mixins and forms the tests import.
- User creation and the other account views are thin wrappers over the authentication library. Only username and email uniqueness is used, as the assumption of `AuthBackend.AtMostTwoCandidates`.
- The limits at `config/base.py:102-104` are parameters (`maxBoards`), not constants.
