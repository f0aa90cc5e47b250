# Songbook: chord-sheet rendering, song search and new-song submission

A model in Dafny of the parts of the songbook web application that carry
their own logic rather than delegating to the chord-sheet library or the
hosted database:

- **Custom chord-sheet renderer** (`ChordProRenderer`). The song comes
  already parsed. It is a sequence of lines. Each line is a comment or a
  list of items, and each item has optional chord text and optional lyric
  text. The renderer emits one HTML `div` per line. In `right` mode the
  line's chords follow its lyrics. In `hidden` mode only lyrics are shown.
  `RenderCustomFormat` is the imperative renderer: a loop over the lines that
  appends to `html`. Its body, `LineFragment`, holds the inner loop that
  builds the line's lyrics and chord list. The loop is proved equal to the
  recursive `RenderSong`. The
  properties are proved as lemmas about `RenderSong`. HTML escaping is a
  parameter `esc` of every rendering member. Nothing is assumed about it.
- **Song search** (`SongSearch`). This module has the case-insensitive
  substring filter over title, content and key. It also has the visibility
  filter string sent with the song query and the "Znaleziono N pieśń/pieśni"
  count label.
- **New-song submission** (`NewSong`). This module has the initial form, the
  checks for a blank title and then blank content, and the inserted row. The
  row holds the trimmed title and content, the key and visibility as
  chosen, and the user as owner. It also has the visibility select mapping
  and the example template shown as a placeholder.
- **String primitives** (`Text`). This module models `trim`, `toLowerCase`,
  `includes`, `join` and the decimal rendering of a number.

`Wrappers` holds `Option` and `Result`. `None` stands for `null` or
`undefined`, and `Failure` stands for an early return with an error toast.

The application has no markup-mode, inline or table formatter of its own,
so the renderer here is `renderCustomFormat`. That function has exactly two
modes. In `right` mode all of a line's chords come after the whole line's
lyrics, not after each segment. A line without items is rendered as a
lyrics `div` holding one space, not as a blank output line. The search
filter is modelled as the song list page writes it.

## Model

| member | source | states |
|---|---|---|
| ChordProRenderer.RenderCustomFormat | src/components/songs/chord-pro-renderer.tsx:70-112 | the loop-built HTML equals `RenderSong`: the per-line fragments concatenated in line order |
| ChordProRenderer.LineFragment | src/components/songs/chord-pro-renderer.tsx:74-108 | the loop body's fragment for one line, with the inner item loop, equals `RenderLine` |
| ChordProRenderer.RenderSong | src/components/songs/chord-pro-renderer.tsx:71-111 | the rendered song is empty exactly when the song has no lines, since every line adds a fragment |
| ChordProRenderer.RenderLine | src/components/songs/chord-pro-renderer.tsx:74-108 | every line, comment or not, with or without items, contributes a non-empty fragment |
| ChordProRenderer.ItemsHtml | src/components/songs/chord-pro-renderer.tsx:100-107 | in both modes a line with items is rendered inside a `<div class="line">` opening |
| ChordProRenderer.LineLyrics | src/components/songs/chord-pro-renderer.tsx:85-95 | the line lyrics are empty exactly when every item's lyrics are absent or empty |
| ChordProRenderer.DisplayLyrics | src/components/songs/chord-pro-renderer.tsx:98 | the displayed lyrics are either the single space or the escaped lyrics, and missing lyrics show as the space |
| ChordProRenderer.RenderSongAppend | src/components/songs/chord-pro-renderer.tsx:71-111 | rendering two songs one after the other gives the concatenation of their outputs; so the empty song renders to "" |
| ChordProRenderer.RenderSongSplit | src/components/songs/chord-pro-renderer.tsx:73-109 | a line's fragment sits exactly between the output of the lines before it and after it |
| ChordProRenderer.CommentLineFragment | src/components/songs/chord-pro-renderer.tsx:74-77 | a comment line emits exactly `<div class="comment">` + esc(comment, or "" when absent) + `</div>` and nothing else |
| ChordProRenderer.EmptyLineFragment | src/components/songs/chord-pro-renderer.tsx:79-82 | a non-comment line with absent or empty items emits exactly the empty lyrics div, in both modes |
| ChordProRenderer.LineChords | src/components/songs/chord-pro-renderer.tsx:88-91 | the collected chords are never more than the items and are all non-empty |
| ChordProRenderer.LineLyricsAppend | src/components/songs/chord-pro-renderer.tsx:85-95 | a line's lyrics are its items' lyrics concatenated in order |
| ChordProRenderer.LyriclessItemAddsNothing | src/components/songs/chord-pro-renderer.tsx:92-94 | an item with absent lyrics contributes nothing to the line's lyrics |
| ChordProRenderer.LineChordsAppend | src/components/songs/chord-pro-renderer.tsx:88-91 | a line's chords are its parts' chords in item order |
| ChordProRenderer.ItemChordsInOrder | src/components/songs/chord-pro-renderer.tsx:89-91 | an item with absent or empty chords is skipped; an item with chords contributes them at its position |
| ChordProRenderer.LineChordsEmptyIff | src/components/songs/chord-pro-renderer.tsx:88-97 | the chord list is empty iff no item has non-empty chord text |
| ChordProRenderer.RightModeChordsShownIff | src/components/songs/chord-pro-renderer.tsx:100-104 | in right mode the chords div appears iff some item has chord text, and it holds the escaped chords joined by single spaces |
| ChordProRenderer.BlankLyricsShownAsSpace | src/components/songs/chord-pro-renderer.tsx:98 | lyrics made only of whitespace show as a single space; any other lyrics show escaped |
| ChordProRenderer.SameLyricsLineLyrics | src/components/songs/chord-pro-renderer.tsx:92-94 | items that agree on their lyrics give the same line lyrics, whatever their chords |
| ChordProRenderer.HiddenModeIgnoresChords | src/components/songs/chord-pro-renderer.tsx:105-107 | in hidden mode two songs that differ only in item chords render identically |
| SongSearch.Matches | src/app/songs/page.tsx:39-41 | the empty query matches every song; a song without a key matches only through its title or content |
| SongSearch.FilterSongs | src/app/songs/page.tsx:34-47 | the filtered list is no longer than the song list, lists only songs that match the lower-cased query, and is the whole list for an empty query |
| SongSearch.KeepMatching | src/app/songs/page.tsx:38-42 | the kept songs are no more than the input, and every kept song is an input song that matches |
| SongSearch.KeepMatchingIsSubsequence | src/app/songs/page.tsx:38-42 | the filter keeps songs in their original order |
| SongSearch.KeepMatchingMembership | src/app/songs/page.tsx:38-42 | a song is kept iff it is in the input and matches |
| SongSearch.EmptyQueryKeepsAll | src/app/songs/page.tsx:44-46 | with an empty query the list is the full song list |
| SongSearch.FilterIsSubsequence | src/app/songs/page.tsx:36-46 | the result is an order-preserving sub-list of the songs, so it is never longer |
| SongSearch.FilterMembership | src/app/songs/page.tsx:36-46 | for any query, a song is listed iff it is a song and lowercase(query) occurs in lowercase title, content, or non-empty key |
| SongSearch.KeylessSongMatchedByTitleOrContent | src/app/songs/page.tsx:41 | a listed song without a key was matched through its title or content |
| SongSearch.FilterIgnoresQueryCase | src/app/songs/page.tsx:37-41 | filtering with a query and with its lower-cased form gives the same list |
| SongSearch.VisibilityFilter | src/app/songs/page.tsx:60 | the filter starts with `public.eq.true`, is exactly that without a user, and with a user is followed by `,created_by.eq.` and then the user id, nothing else |
| SongSearch.VisibilityFilterShape | src/app/songs/page.tsx:60 | the filter starts with `public.eq.true`, is exactly that iff there is no user, and different users give different filters |
| SongSearch.CountNoun | src/app/songs/page.tsx:105 | the noun is the singular `pieśń` exactly for a count of one and the plural `pieśni` otherwise |
| SongSearch.CountLabel | src/app/songs/page.tsx:105 | the label is `Znaleziono `, then the count's digits, then a space and the noun, in that order |
| SongSearch.CountLabelNoun | src/app/songs/page.tsx:105 | the label ends in `pieśń` iff exactly one song was found, and in `pieśni` otherwise |
| SongSearch.CountLabelInjective | src/app/songs/page.tsx:105 | different counts give different labels |
| NewSong.InitialForm | src/app/admin/songs/new/page.tsx:22-27 | the initial form has empty title and content, key C and public set |
| NewSong.Submit | src/app/admin/songs/new/page.tsx:31-63 | a failure carries one of the three messages: the title message iff the trimmed title is empty, the content message iff only the trimmed content is empty, the login message iff both are filled but no user is signed in; a success stores non-empty title and content, the key and visibility as chosen, and the signed-in user as owner |
| NewSong.InitialFormRejected | src/app/admin/songs/new/page.tsx:22-37 | the initial form has empty title and content, key C and public set, and submitting it fails with the title message |
| NewSong.BlankTitleRejected | src/app/admin/songs/new/page.tsx:34-37 | a whitespace-only title fails with "Please enter a song title", whatever the content and user |
| NewSong.BlankContentRejected | src/app/admin/songs/new/page.tsx:39-42 | whitespace-only content under a real title fails with "Please enter song content" |
| NewSong.SubmitSucceedsIff | src/app/admin/songs/new/page.tsx:34-53 | a submit succeeds iff title and content are not blank and a user is signed in |
| NewSong.SubmittedRecord | src/app/admin/songs/new/page.tsx:57-63 | the stored row has the trimmed title and content, both non-empty and without outer whitespace, key and public unchanged, and the user as owner |
| NewSong.ResubmitIsStable | src/app/admin/songs/new/page.tsx:57-63 | submitting a stored row again as its owner stores the same row |
| NewSong.VisibilityValue | src/app/admin/songs/new/page.tsx:152 | the select shows one of the two offered options, "public" exactly for a public song |
| NewSong.ChooseVisibility | src/app/admin/songs/new/page.tsx:153 | choosing a value makes the form public exactly when the value is "public" and leaves title, key and content unchanged |
| NewSong.VisibilityRoundTrip | src/app/admin/songs/new/page.tsx:152-153 | the select shows "public" iff public; choosing the shown value changes nothing; choosing "public" or "private" makes the select show it; nothing else in the form changes |
| NewSong.TemplateTitle | src/app/admin/songs/new/page.tsx:78 | the template title is never empty: the form title when there is one, "Song Title" when it is empty |
| NewSong.ExampleTemplate | src/app/admin/songs/new/page.tsx:78-87 | the template ends with the fixed example lines after the directives |
| NewSong.ExampleTemplateDirectives | src/app/admin/songs/new/page.tsx:78-79 | the template opens with a title directive that is never empty, shows the form title, or "Song Title" exactly when that is empty, then the key directive |
| Text.IsWhitespace | src/app/admin/songs/new/page.tsx:34 | whitespace is never a letter or digit, and among ASCII characters it is exactly space, tab, line feed, vertical tab, form feed and carriage return |
| Text.Trim | src/app/admin/songs/new/page.tsx:34 | the trimmed string neither starts nor ends with whitespace |
| Text.TrimSlice | src/app/admin/songs/new/page.tsx:58 | the trimmed string is a slice of the input with only whitespace cut off on either side |
| Text.TrimEmptyIffBlank | src/components/songs/chord-pro-renderer.tsx:98 | `s.trim() === ''` iff every character of s is whitespace |
| Text.TrimIdempotent | src/app/admin/songs/new/page.tsx:58-60 | trimming twice is trimming once |
| Text.ToLower | src/app/songs/page.tsx:37 | lower-casing keeps the length, maps each letter A-Z to its lower-case partner, keeps every other character, and leaves no upper-case letter |
| Text.ToLowerIdempotent | src/app/songs/page.tsx:37-41 | lower-casing twice is lower-casing once |
| Text.Contains | src/app/songs/page.tsx:39-41 | the empty string is found in every string, and nothing longer than a string is found in it |
| Text.ContainsIffOccurs | src/app/songs/page.tsx:39-41 | `includes` holds iff the needle occurs at some index |
| Text.Join | src/components/songs/chord-pro-renderer.tsx:97 | a non-empty join starts with the first part and ends with the last |
| Text.JoinEmptyIff | src/components/songs/chord-pro-renderer.tsx:97 | joining non-empty chord texts gives "" iff there are none |
| Text.NatToDecimal | src/app/songs/page.tsx:105 | the rendered count is digits only, non-empty, without a leading zero |
| Text.DecimalRoundTrip | src/app/songs/page.tsx:105 | reading the rendered count back gives the count |

## Left out

- Parsing and transposing with the chord-sheet library, the `above` display mode through the library's table formatter, and the library-backed helpers in `src/lib/chords/transposer.ts` and `src/lib/chords/parser.ts`. These are foreign calls. The repository has no pitch arithmetic or markup formatter of its own.
- `escapeHtml`: it serialises through the DOM. It is the parameter `esc`, and no property of it is assumed.
- ChordProRenderer.RenderLine: a comment is recognised by `line.type === 'comment'`, and every other line type is treated the same. The other line types of the library are not told apart.
- Text.ToLower: only ASCII letters are lower-cased. `toLowerCase` is Unicode-aware, and letters such as `Ś` are left unchanged here.
- String representation: JavaScript strings are sequences of UTF-16 code units, and the model's strings are sequences of code points. Characters outside the Basic Multilingual Plane, which JavaScript stores as surrogate pairs, count as one character here, so lengths and indices can differ from JavaScript's for such text.
- Text.IsWhitespace: the ECMAScript WhiteSpace and LineTerminator code points are listed explicitly. The Unicode category lookup behind them is not modelled.
- Database and authentication calls, router navigation, toasts, the loading flags and the React state and effect plumbing (`src/app/songs/page.tsx:49-71`, `src/app/admin/songs/new/page.tsx:44-75`). The signed-in user is a parameter (`userId`), and the song list is an input. The insert error path after the row is built (lines 67-69) is not modelled.
- NewSong.Submit: the form's title, key and content setters are plain field updates and are not modelled separately. The key select offers the fixed key list from `src/lib/chords/transposer.ts`, and the model accepts any key string.
- Date formatting of `created_at` on the list page. It depends on the locale.
- The setlist pages, the navigation bar and the authentication provider. They are UI with no logic of their own.
