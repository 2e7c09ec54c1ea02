# Blog core logic, modelled in Dafny

This project models the logic-bearing parts of a personal blog built with
Next.js. Each has its own module:

- **VideoEmbed** (`video_embed.dfy`): `getEmbedUrl` turns a YouTube, Vimeo or
  Loom page URL into the provider's embed URL. It tries three regular
  expressions in that order. The component shows the player, or an
  invalid-URL message when nothing matches. The regular expressions are
  modelled exactly as JavaScript runs them:
  - the leftmost match position wins;
  - at one position, alternatives are tried left to right;
  - greedy `.+`/`.*` take the longest run that still lets the rest match;
  - `.` matches any character except a line terminator;
  - `\s` is JavaScript's whitespace set.

  Every matcher is paired with a declarative "the pattern can match here"
  predicate. The matcher is proved sound and complete against it, and the
  search is proved to find the leftmost match.
- **SubscribeApi** (`subscribe_api.dfy`): the `POST /api/subscribe` handler.
  It checks the method, then the email, then the mailing-list configuration,
  then relays to the mailing-list service and maps its answer to a status
  and a JSON body. It is split where it awaits the network:
  - `Decide` answers at once or describes the upstream request;
  - `Conclude` maps the upstream outcome to the answer.
- **NewsletterForm** (`newsletter_form.dfy`): the form's four state fields
  as a class. `subscribe` updates them around the awaited call. Pure
  functions give what the form shows: the button's label and disabled flag,
  the error notice and the confirmation line.
- **SearchResultCard** (`search_result_card.dfy`): the AI search result card.
  - A class holds the effect on `[streamData, status]`: it re-serialises the
    whole buffer and schedules scrolls.
  - The serialiser is opaque and may fail.
  - Pure functions give what is shown for given props.
- **RssFeed** (`rss_feed.dfy`): the RSS generation script.
  - `getPosts` filters the content listing and applies a prepend-reduce.
  - Posts are sorted newest first by the script's comparator.
  - A loop appends one feed item per post.
- **Common** (`common.dfy`): `Option` and the string searches the sources
  use: `includes`, `indexOf`, first-occurrence `replace`, and the unanchored
  leftmost search that `String.prototype.match` performs.

Strings are sequences of Unicode code points. Dates are integer keys
standing for the ordered date values. File contents, network answers and
environment variables are inputs.

The search card has no stale-result check: a serialisation that settles
late overwrites a newer one (`SearchResultCard.StaleRenderWins`). The
streaming dispatcher that might tag requests is not part of this model.

## Model

| member | source | states |
|---|---|---|
| Common.Includes | core/components/NewsletterForm/NewsletterForm.tsx:191 | true exactly when the substring occurs somewhere |
| Common.ReplaceFirst | scripts/generate-rss.js:32 | without an occurrence the string is unchanged; otherwise exactly the first occurrence is replaced |
| Common.Leftmost | core/components/VideoEmbed/VideoEmbed.tsx:12 | a non-global `match` finds the leftmost position where the anchored pattern matches, and None means no position matches |
| VideoEmbed.SegmentForm | core/components/VideoEmbed/VideoEmbed.tsx:11 | `[^\/]+\/.+\/` ends at the first slash, then backtracks to the last slash on the line that is followed by an id; sound and complete against the declarative path |
| VideoEmbed.ParamForm | core/components/VideoEmbed/VideoEmbed.tsx:11 | `.*[?&]v=` takes the last `?v=`/`&v=` on the line that is followed by an id; sound and complete |
| VideoEmbed.DomainForm | core/components/VideoEmbed/VideoEmbed.tsx:11 | the alternatives after `youtube.com/` are tried in regex order: the last path-segment match before an id if there is one, else `v/`, else `embed/`, else `e/`, else the last `?v=`/`&v=` before an id; the id found is one the pattern allows, and None means no alternative reaches an id |
| VideoEmbed.DomainPickUnique | core/components/VideoEmbed/VideoEmbed.tsx:11 | the alternatives' priority yields at most one id position after `youtube.com/` |
| VideoEmbed.YouTubeAt | core/components/VideoEmbed/VideoEmbed.tsx:11 | the YouTube pattern anchored at a position: Some exactly when it can match there, with the capture the alternatives' priority picks |
| VideoEmbed.YouTubePickUnique | core/components/VideoEmbed/VideoEmbed.tsx:11 | the pattern anchored at one position returns at most one capture |
| VideoEmbed.PickIsMatch | core/components/VideoEmbed/VideoEmbed.tsx:11 | the capture the priority picks is one the pattern allows |
| VideoEmbed.VimeoAt | core/components/VideoEmbed/VideoEmbed.tsx:18 | the Vimeo pattern anchored at a position, `video/` tried first, capturing the maximal digit run; sound and complete |
| VideoEmbed.LoomAt | core/components/VideoEmbed/VideoEmbed.tsx:25 | the Loom pattern anchored at a position, capturing the maximal alphanumeric run; sound and complete |
| VideoEmbed.FirstYouTube | core/components/VideoEmbed/VideoEmbed.tsx:11-12 | Some exactly when the YouTube pattern occurs anywhere, with the capture the alternatives' priority picks at its leftmost match |
| VideoEmbed.FirstVimeo | core/components/VideoEmbed/VideoEmbed.tsx:18-19 | Some exactly when the Vimeo pattern occurs anywhere, with the capture at its leftmost match |
| VideoEmbed.FirstLoom | core/components/VideoEmbed/VideoEmbed.tsx:25-26 | Some exactly when the Loom pattern occurs anywhere, with the capture at its leftmost match |
| VideoEmbed.ProviderOrder | core/components/VideoEmbed/VideoEmbed.tsx:9-32 | YouTube wins whenever it matches, then Vimeo, then Loom; each builds its embed URL from the capture at the leftmost match, for YouTube the one the alternatives' priority picks; null exactly when no pattern matches |
| VideoEmbed.GetEmbedUrl | core/components/VideoEmbed/VideoEmbed.tsx:9-32 | null exactly when no pattern matches; the rest of its contract is stated by `ProviderOrder` |
| VideoEmbed.YouTubeIdShape | core/components/VideoEmbed/VideoEmbed.tsx:11 | a YouTube capture is exactly 11 characters, none of them `"`, `&`, `?`, `/` or whitespace |
| VideoEmbed.VimeoIdShape | core/components/VideoEmbed/VideoEmbed.tsx:18 | a Vimeo capture is a non-empty run of digits |
| VideoEmbed.LoomIdShape | core/components/VideoEmbed/VideoEmbed.tsx:25 | a Loom capture is a non-empty run of ASCII letters and digits |
| VideoEmbed.EmbedPrefixesDistinct | core/components/VideoEmbed/VideoEmbed.tsx:14-28 | no string starts with two of the three embed prefixes |
| VideoEmbed.EmbedUrlShape | core/components/VideoEmbed/VideoEmbed.tsx:9-32 | every embed URL starts with exactly one provider prefix, followed by an id of that provider's shape |
| VideoEmbed.YouTubeResultShape | core/components/VideoEmbed/VideoEmbed.tsx:13-15 | a YouTube result is the YouTube prefix followed by an 11-character id |
| VideoEmbed.VimeoResultShape | core/components/VideoEmbed/VideoEmbed.tsx:20-22 | a Vimeo result is the Vimeo prefix followed by digits |
| VideoEmbed.LoomResultShape | core/components/VideoEmbed/VideoEmbed.tsx:27-29 | a Loom result is the Loom prefix followed by letters and digits |
| VideoEmbed.YouTuBeAnywhere | core/components/VideoEmbed/VideoEmbed.tsx:11-12 | matching is unanchored: `youtu.be/` plus 11 id characters anywhere in a URL gives a YouTube embed |
| VideoEmbed.YouTubeDecides | core/components/VideoEmbed/VideoEmbed.tsx:11-15 | the capture the priority picks at the leftmost YouTube match determines the embed URL |
| VideoEmbed.VimeoDecides | core/components/VideoEmbed/VideoEmbed.tsx:18-22 | with no YouTube match, the leftmost Vimeo match determines the embed URL |
| VideoEmbed.VimeoUnique | core/components/VideoEmbed/VideoEmbed.tsx:18 | at one position the Vimeo pattern allows one capture only |
| VideoEmbed.ExampleShortLink | core/components/VideoEmbed/VideoEmbed.tsx:11-15 | `https://youtu.be/abc12345678` embeds as `https://www.youtube.com/embed/abc12345678` |
| VideoEmbed.ExampleVimeo | core/components/VideoEmbed/VideoEmbed.tsx:18-22 | `https://vimeo.com/12345` embeds as `https://player.vimeo.com/video/12345` |
| VideoEmbed.ExampleUnsupported | core/components/VideoEmbed/VideoEmbed.tsx:31 | `https://example.com/video` gives null |
| VideoEmbed.ExampleEmbedBeforeParam | core/components/VideoEmbed/VideoEmbed.tsx:11-15 | `https://youtube.com/embed/AAAAAAAAAAA?v=BBBBBBBBBBB` allows both ids, and the `embed/` alternative, listed first, embeds `AAAAAAAAAAA` |
| VideoEmbed.Render | core/components/VideoEmbed/VideoEmbed.tsx:34-55 | the invalid-URL message exactly when no pattern matches; otherwise the player with the embed URL and the title, defaulting to "Video" |
| SubscribeApi.MembersUrl | pages/api/subscribe.ts:32 | the members URL is the data-centre host, the audience id and `/members`, in that order |
| SubscribeApi.Decide | pages/api/subscribe.ts:12-45 | an upstream call is made exactly for a POST with a non-empty email and complete configuration; otherwise an error body with 405, 400 or 500; the call carries the URL, the credentials and the subscribed email |
| SubscribeApi.Conclude | pages/api/subscribe.ts:47-67 | 201 exactly when the service answered below 400, and then the body is success; otherwise 400 or 500, and 500 always carries the generic text |
| SubscribeApi.MethodCheckedFirst | pages/api/subscribe.ts:12-14 | a non-POST gets 405 whatever the email, configuration or network do |
| SubscribeApi.EmailCheckedSecond | pages/api/subscribe.ts:16-20 | a missing or empty email gets 400; any non-empty email passes, even one made of spaces |
| SubscribeApi.ConfigurationCheckedThird | pages/api/subscribe.ts:22-30 | missing configuration gets 500 and no upstream call |
| SubscribeApi.UpstreamMapping | pages/api/subscribe.ts:49-67 | "Member Exists" maps to the already-subscribed text; other rejections with a body map to `detail` or the generic text; a rejection with a `null` body throws reading `title` and maps to 500; acceptance maps to 201 whatever the body; a throw maps to 500 |
| SubscribeApi.CreatedExactly | pages/api/subscribe.ts:8-68 | 201 exactly when every check passes and the service accepts; the status is always 201, 405, 400 or 500 |
| SubscribeApi.Handle | pages/api/subscribe.ts:8-68 | every answer is a success with 201 or an error with 405, 400 or 500 |
| SubscribeApi.AlreadySubscribedOnlyFromMemberExists | pages/api/subscribe.ts:51-55 | the already-subscribed text only comes from a call that was made and answered "Member Exists" |
| NewsletterForm.Begin | core/components/NewsletterForm/NewsletterForm.tsx:31-32 | starting a subscription sets loading and clears the error, keeping email and success |
| NewsletterForm.Settle | core/components/NewsletterForm/NewsletterForm.tsx:33-40 | loading always ends; success is set by a resolved call; a rejection records its message |
| NewsletterForm.ButtonDisabled | core/components/NewsletterForm/NewsletterForm.tsx:170 | the button is disabled exactly while loading or after success |
| NewsletterForm.ButtonLabel | core/components/NewsletterForm/NewsletterForm.tsx:184 | `...` exactly while loading, `✓` exactly on success when not loading, `>` otherwise |
| NewsletterForm.ErrorNotice | core/components/NewsletterForm/NewsletterForm.tsx:190-200 | no notice exactly without an error; the already-subscribed text exactly when the message contains "already subscribed"; the generic text otherwise |
| NewsletterForm.ShowsConfirmation | core/components/NewsletterForm/NewsletterForm.tsx:201-211 | the confirmation line is shown after a success; `SuccessIsPermanent` proves it stays |
| NewsletterForm.Step | core/components/NewsletterForm/NewsletterForm.tsx:30-41 | no event clears success, and only a resolved call sets it |
| NewsletterForm.Replay | core/components/NewsletterForm/NewsletterForm.tsx:30-41 | events are applied in order: the last one acts on the state the others lead to |
| NewsletterForm.Form.constructor | core/components/NewsletterForm/NewsletterForm.tsx:25-28 | empty email, not loading, no success, no error |
| NewsletterForm.Form.SetEmail | core/components/NewsletterForm/NewsletterForm.tsx:156 | typing replaces the email and nothing else |
| NewsletterForm.Form.BeginSubscribe | core/components/NewsletterForm/NewsletterForm.tsx:30-32 | the fields become `Begin` of the old state; the current email is sent |
| NewsletterForm.Form.FinishSubscribe | core/components/NewsletterForm/NewsletterForm.tsx:33-40 | the fields become `Settle` of the old state with the call's outcome |
| NewsletterForm.Form.Submit | core/components/NewsletterForm/NewsletterForm.tsx:141-146 | one whole attempt sends the current email and ends in `Settle(Begin(old))` |
| NewsletterForm.SuccessIsPermanent | core/components/NewsletterForm/NewsletterForm.tsx:30-41 | after success, any sequence of events keeps success, the disabled button and the confirmation line |
| NewsletterForm.SuccessNeedsResolvedCall | core/components/NewsletterForm/NewsletterForm.tsx:33-35 | success is only reached through a resolved call |
| NewsletterForm.WhileLoading | core/components/NewsletterForm/NewsletterForm.tsx:31-32 | while a call is pending: label `...`, button disabled, no error notice |
| NewsletterForm.AttemptOutcome | core/components/NewsletterForm/NewsletterForm.tsx:30-41 | after an attempt: a resolved call shows the tick, the disabled button and the confirmation; a rejected one shows its notice and leaves success as it was |
| NewsletterForm.IdleLabelIffEnabled | core/components/NewsletterForm/NewsletterForm.tsx:170-184 | the label is `>` exactly when the button can be pressed |
| NewsletterForm.AlreadySubscribedAnywhere | core/components/NewsletterForm/NewsletterForm.tsx:191 | "already subscribed" anywhere in a rejection message selects the already-subscribed notice |
| SearchResultCard.QueryEcho | core/components/Search/AIPromptResultCard.tsx:155-177 | the query is echoed in double quotes exactly when it is non-empty |
| SearchResultCard.ShowsQuery | core/components/Search/AIPromptResultCard.tsx:155 | the query is shown when it is non-empty; `QueryEcho` and `SamplePanelExclusive` state what follows from it |
| SearchResultCard.ShowsSamplePanel | core/components/Search/AIPromptResultCard.tsx:178 | the sample panel needs no text, no query and no search started; `SamplePanelExclusive` relates it to the rest |
| SearchResultCard.ShowsSources | core/components/Search/AIPromptResultCard.tsx:259 | sources are shown once done with a defined list; `SourcesOnlyWhenDone` relates it to the status |
| SearchResultCard.ShowsErrorLine | core/components/Search/AIPromptResultCard.tsx:244 | the error line is shown whenever there is an error; `ErrorLine` and `ErrorLineParts` give its text |
| SearchResultCard.SampleButtons | core/components/Search/AIPromptResultCard.tsx:198-217 | ten buttons in list order; each shows and selects its own sample question |
| SearchResultCard.SampleSelection | core/components/Search/AIPromptResultCard.tsx:30-41 | a button selects exactly the question it shows, and no two buttons select the same question |
| SearchResultCard.Decimal | core/components/Search/AIPromptResultCard.tsx:246 | a status code renders as decimal digits without a leading zero |
| SearchResultCard.DecimalRoundTrip | core/components/Search/AIPromptResultCard.tsx:246 | the rendered digits read back as the status code |
| SearchResultCard.ErrorLine | core/components/Search/AIPromptResultCard.tsx:244-249 | the error line ends with the retry request and is longer than the status text and that request together |
| SearchResultCard.ErrorLineParts | core/components/Search/AIPromptResultCard.tsx:244-249 | the error line starts with digits that read back as the status code, then a space, the status text and the retry request |
| SearchResultCard.SourceListVariant | core/components/Search/AIPromptResultCard.tsx:265-267 | the sources list is ordered exactly when there is more than one source |
| SearchResultCard.BodyOverflow | core/components/Search/AIPromptResultCard.tsx:152 | the body's vertical overflow is hidden exactly while loading, and `auto` otherwise |
| SearchResultCard.PanelsScrollable | core/components/Search/AIPromptResultCard.tsx:152-267 | whenever the sources or sample panel shows, the body can scroll; shown sources are numbered exactly when there are several |
| SearchResultCard.SourcesOnlyWhenDone | core/components/Search/AIPromptResultCard.tsx:259 | sources are never shown while loading, before a search or after a failure; an empty but defined list is shown once done |
| SearchResultCard.SamplePanelExclusive | core/components/Search/AIPromptResultCard.tsx:155-178 | the sample panel never appears with the query echo or the sources, and disappears once a search starts or text arrives |
| SearchResultCard.ResultCard.constructor | core/components/Search/AIPromptResultCard.tsx:49-52 | a new card renders nothing and has nothing pending or scheduled |
| SearchResultCard.ResultCard.Mounted | core/components/Search/AIPromptResultCard.tsx:55-59 | after mounting, the body, if present, is scrolled to the top |
| SearchResultCard.ResultCard.StreamChanged | core/components/Search/AIPromptResultCard.tsx:70-96 | an empty buffer clears the render and schedules nothing; a non-empty one is handed whole to the serialiser and schedules one scroll when the body is present and the status is loading or done |
| SearchResultCard.ResultCard.SerializeSettled | core/components/Search/AIPromptResultCard.tsx:71-77 | a settled serialisation, in any order, replaces the render on success and leaves it on failure; what is rendered is always the serialisation of a non-empty buffer that was handed over |
| SearchResultCard.ResultCard.SourcesToggled | core/components/Search/AIPromptResultCard.tsx:260 | toggling the sources panel schedules one more scroll |
| SearchResultCard.ResultCard.ScrollFrame | core/components/Search/AIPromptResultCard.tsx:61-68 | a scheduled scroll is consumed and, when the body is present, records `scrollHeight` as the requested scroll target |
| SearchResultCard.StaleRenderWins | core/components/Search/AIPromptResultCard.tsx:70-96 | an older buffer whose serialisation settles last stays rendered after a newer one |
| SearchResultCard.ClearedThenRefilled | core/components/Search/AIPromptResultCard.tsx:79-86 | clearing the buffer does not cancel a pending serialisation, which renders the old text afterwards |
| RssFeed.Listed | scripts/generate-rss.js:18-20 | every entry except `img` is kept, none dropped or duplicated; `ListedAppend` and `ListedSingle` give the order |
| RssFeed.ListedAppend | scripts/generate-rss.js:18-20 | filtering distributes over concatenation, so kept entries stay in listing order |
| RssFeed.ListedSingle | scripts/generate-rss.js:18-20 | a single entry is kept exactly when it is not `img` |
| RssFeed.Slug | scripts/generate-rss.js:32 | a name without `.mdx` is its own slug; otherwise exactly the first `.mdx` is removed |
| RssFeed.PostFor | scripts/generate-rss.js:29-33 | a post has the frontmatter's title, subtitle and date, and the slug from its file name, overriding any frontmatter slug |
| RssFeed.PrependAll | scripts/generate-rss.js:22-36 | the reduce yields one post per entry on top of its accumulator; `PrependAllReverses` gives the order |
| RssFeed.GetPosts | scripts/generate-rss.js:17-39 | one post per entry that is not `img`; `GetPostsIsReversedListing` gives the posts themselves |
| RssFeed.PostsInOrder | scripts/generate-rss.js:22-36 | one post per listed entry, in listing order: the reference for the reduce |
| RssFeed.PrependAllReverses | scripts/generate-rss.js:22-36 | the prepend-reduce puts the listing's posts in reverse order in front of its accumulator |
| RssFeed.ListedLength | scripts/generate-rss.js:18-20 | the filtered listing is shorter than the listing by exactly its number of `img` entries |
| RssFeed.GetPostsIsReversedListing | scripts/generate-rss.js:17-39 | before sorting, the posts are those of the listing without `img`, in reverse listing order |
| RssFeed.GetPostsCount | scripts/generate-rss.js:17-39 | there is one post per entry other than `img` |
| RssFeed.SlugStripsFirstExtension | scripts/generate-rss.js:32 | `<stem>.mdx<rest>` with no `.mdx` in the stem has slug `<stem><rest>`, whatever the frontmatter says |
| RssFeed.Compare | scripts/generate-rss.js:53 | -1 exactly when the first post is later, 1 otherwise |
| RssFeed.CompareTies | scripts/generate-rss.js:53 | for equal dates, each post is said to go after the other |
| RssFeed.Insert | scripts/generate-rss.js:52-54 | inserting into a newest-first list keeps it newest first and adds exactly that post |
| RssFeed.SortByDate | scripts/generate-rss.js:52-54 | the sorted posts are a permutation of the input with non-increasing dates |
| RssFeed.NewestFirstUnique | scripts/generate-rss.js:52-54 | with distinct dates there is only one newest-first order, so any correct sort gives the same feed |
| RssFeed.PostUrl | scripts/generate-rss.js:57 | the url is the posts prefix followed by the slug, and the slug reads back from it |
| RssFeed.ItemFor | scripts/generate-rss.js:57-66 | an item carries the post's title, subtitle as description, date, the fixed author, and a guid equal to its url |
| RssFeed.ItemsFor | scripts/generate-rss.js:56-67 | one item per post, in the posts' order |
| RssFeed.DistinctSlugsDistinctUrls | scripts/generate-rss.js:57-65 | posts with different slugs get different urls and guids |
| RssFeed.FeedItemsFromListing | scripts/generate-rss.js:52-67 | for any newest-first permutation of the posts, the feed has one item per entry other than `img`, newest first, each made from the post at its place |
| RssFeed.FeedPostsFromListing | scripts/generate-rss.js:17-54 | any such permutation holds exactly the posts of the listing without `img`: none dropped, duplicated or invented |
| RssFeed.GetPostsPermutesListing | scripts/generate-rss.js:17-39 | the reduce yields the posts of the listing without `img`, as a multiset |
| RssFeed.Feed.constructor | scripts/generate-rss.js:42-50 | a new feed has its channel settings and no items |
| RssFeed.Feed.AddItem | scripts/generate-rss.js:59-66 | adding an item appends it at the end |
| RssFeed.AddPostItems | scripts/generate-rss.js:56-67 | the loop appends exactly the posts' items, in order |
| RssFeed.Generate | scripts/generate-rss.js:41-67 | the blog's feed holds the items of the posts in some newest-first permutation; the order among equal dates is left open |

## Left out

- Email values that are not strings (numbers, arrays, objects in the JSON body) are not modelled; the email is absent or a string.
- The Basic authorisation header is modelled as the user and password it encodes; the base64 encoding (section 4 of RFC 4648) is not modelled.
- `fetch`, `response.json()`, `process.env` and the response writer are inputs and a returned value; the upstream outcome is a parameter.
- A request whose parsed body is `null` is not modelled: destructuring `email` from it throws before the `try`, so the framework, not the handler, answers with its own 500. The request is modelled as a method and an optional email.
- A rejection whose thrown value is not an `Error` with a string message is not modelled. A falsy thrown value would show no notice, and a value without a string `message` would make the notice's `includes` throw while rendering. `Rejected` always carries a string message.
- `subscribeCall` (the client's request to the endpoint) is not part of this model. The form's rejection message is an input, and nothing links it to the endpoint's already-subscribed text.
- The MDX serialiser and renderer, motion animations, `requestAnimationFrame`, `setTimeout` and DOM scrolling are not modelled beyond the scroll position and the count of scheduled scrolls. The 300 ms delay is not modelled. A scroll records the requested target (`scrollHeight`); the browser's clamp to `scrollHeight - clientHeight` and the smooth animation are not modelled.
- The streaming dispatcher and any request tagging are not part of this model; the card only receives `streamData` and `status`.
- `fs` reads and writes, `gray-matter` parsing, the `rss` library's XML output, `new Date(...)` parsing, console output and `process.exit` are not modelled. A file's frontmatter is the result of a parameter function, and a date is an integer key.
- SortByDate: the order among posts with equal dates is whatever this insertion sort gives. The script's comparator fixes no order for ties, and JavaScript's sort algorithm is implementation-defined. So `Generate`, `FeedItemsFromListing` and `FeedPostsFromListing` are stated for any newest-first permutation of the posts, and no property about ties is stated.
- Frontmatter fields other than title, subtitle, date and slug are not modelled; they do not reach the feed.
- Strings are sequences of code points, while JavaScript strings and the `{11}` of the YouTube pattern count UTF-16 code units: for characters outside the Basic Multilingual Plane the model's captures and lengths differ from the source's (a lone surrogate half cannot be represented). No Unicode normalisation is modelled.
