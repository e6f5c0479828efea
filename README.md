# Odyssey admin and site logic, modelled in Dafny

This project models the parts of the Odyssey coaching site that hold sequential logic. The rest of the code is rendering, styling and calls to the hosted backend. The modelled parts are:

- **The coach roster of the admin area.** It covers drag-and-drop reordering, re-stamping `order_index` to positions, and the write-back loop of one awaited `updateCoach` per coach. It also covers adding, editing and saving a coach, and re-fetching the list.
- **The coach form.** It covers the text, bio, link and show fields, and the three string lists (images, qualifications, achievements), which can be dragged, removed and appended to. It also covers the storage paths of the two upload handlers.
- **The theme editor.**
  - `handleColorChange` writes a colour at a dotted key path.
  - `ColorSection` flattens each section literal into inputs.
  - `ButtonColorSection` builds its keys by hand.
  - The picker toggle, the name input and `handleSave` are modelled too.
- **The theme table** and `getThemeById`, with its fallback to the first theme.
- **`useThemeColor`**, where a per-theme override wins over the colour the theme itself gives.
- **The page title of the header**, which normalises the pathname and looks it up in a fixed table.
- **The menu entry `NavDropdown`.** It covers the active and open predicates, and the small state machine of `isOpen` and `contentHeight`.
- **The admin gate:** the request middleware and the admin layout's `checkAuth` with its loading state.

Every answer of the backend is an input to the model:
- the session and profile lookups;
- the replies to `updateCoach`;
- the id given to an inserted row;
- the result of the list query;
- the storage upload.

The clock reading and the public URL of an upload are inputs as well.

## Modules

| file | module | what it holds |
|---|---|---|
| wrappers.dfy | Wrappers | `Option` |
| sequences.dfy | Sequences | `findIndex`, `arrayMove` (remove at `from`, insert at `to`), `filter` by value |
| strings.dfy | Strings | `split` and its inverse `Join`, `split(c).pop()`, `indexOf`, first-occurrence `replace`, decimal rendering of a clock reading |
| coach_record.dfy | CoachRecord | the `CoachDetail` record |
| coaches.dfy | Coaches | the roster: reordering, the `coaches` table as a map from id to row, the write-back loop, the class `AdminCoaches` |
| coach_form.dfy | CoachForm | the form class and its pure list and field operations |
| theme_tree.dfy | ThemeTree | the colours as an ordered tree, the path write that `handleColorChange` computes, the flattening of `renderColorInput` |
| theme_heap.dfy | ThemeHeap | the colours as a heap of JavaScript objects, the top-level copy, the walk and the nested assignment |
| theme_sections.dfy | ThemeSections | section literals as layouts, and when their inputs write back to what they show |
| theme_layouts.dfy | ThemeLayouts | the ten sections of the editor, the Status section as written, and the Button section |
| theme_editor.dfy | ThemeEditor | the default colours and the class `Editor` |
| themes.dfy | Themes | the theme table and `getThemeById` |
| theme_color.dfy | ThemeColor | `useThemeColor` |
| header.dfy | Header | `getPageTitle` |
| nav_dropdown.dfy | NavDropdown | the menu entry and the menu table |
| middleware.dfy | Middleware | the request middleware |
| admin_layout.dfy | AdminLayout | `checkAuth` and the loading gate |

### Behaviour of the code worth noting

- **`handleColorChange` is not copy-on-write.** It copies only the top level with `{ ...prev }` and then assigns into the nested objects it shares with the previous colours. Those are the default colours object for a new theme, and the themes list's own colours object for an existing theme. The model therefore keeps the colours in an explicit heap of objects (module ThemeHeap). See the findings below.
- **The home page does not reach `case '/'`.** The trailing-slash strip turns `/` into the empty path, so the home page gets ODYSSEY from the default branch, and the `case '/'` is reachable only from `//` (`Header.HomeTitle`).
- **The menu link `/contact` gets the default title.** The title table lists `/contact/page`, so `/contact` is titled ODYSSEY (`Header.ContactMenuTitle`). This is stated but not claimed as a defect, since which pathname the router reports for that page is not part of this model.

## Model

| member | source | states |
|---|---|---|
| AdminLayout.CheckAuth | app/admin/_layout.tsx:22-48 | the user is sent to the login page unless both the session and the admin profile are found; sign-out is attempted exactly when there is a session and no profile; an error is logged exactly when a lookup throws or the sign-out throws |
| AdminLayout.SignOutFailureStillRedirects | app/admin/_layout.tsx:37-44 | a sign-out that throws changes neither the redirect nor the sign-out attempt, because the catch redirects too |
| AdminLayout.Layout.constructor | app/admin/_layout.tsx:11 | the layout starts loading, with no redirect made, and renders the loading view |
| AdminLayout.Layout.Render | app/admin/_layout.tsx:14-56 | the effect runs only for a new pathname; on the login page it ends loading without a check; elsewhere it appends one login redirect per redirecting outcome of `CheckAuth` and counts sign-outs; loading ends after every outcome; every redirect goes to the login page |
| Middleware.Handle | middleware.ts:5-42 | the profile is looked up exactly for a non-login `/admin` path with a session; a sign-out happens only after a lookup and always ends in a redirect to the login page |
| Middleware.AdminGate | middleware.ts:15-38 | under `/admin` a request passes exactly when it is the login page without a session, or another page with a session and a profile; it goes to the dashboard exactly from the login page with a session, and to the login page otherwise |
| Middleware.ProfileOnlyWhenLookedUp | middleware.ts:29-35 | the profile lookup's answer cannot change the outcome when no lookup is made |
| Middleware.OutsideAdminPasses | middleware.ts:23-41 | a path outside `/admin` passes with no lookup and no sign-out |
| Middleware.LoginMatchIsExact | middleware.ts:15-26 | `/admin/login/` takes the protected branch and is redirected to the login page without a session |
| NavDropdown.AnyHref | components/NavDropdown.tsx:45 | true exactly when some sub-item's href is the pathname |
| NavDropdown.InitiallyOpen | components/NavDropdown.tsx:43-48 | an entry without sub-items starts closed; one with sub-items starts open exactly when one of them is the current page |
| NavDropdown.HighlightedIffActiveOrOpen | components/NavDropdown.tsx:74-89 | an entry is highlighted exactly when its own href is the page or it starts open |
| NavDropdown.Dropdown.constructor | components/NavDropdown.tsx:43-51 | `isOpen` starts as `InitiallyOpen` and `contentHeight` as 0 |
| NavDropdown.Dropdown.Press | components/NavDropdown.tsx:85 | a mobile press flips `isOpen` and leaves the height |
| NavDropdown.Dropdown.HoverIn | components/NavDropdown.tsx:151 | hovering in opens the entry on desktop, which then shows its dropdown when it has sub-items; on mobile nothing changes |
| NavDropdown.Dropdown.HoverOut | components/NavDropdown.tsx:152 | hovering out closes the entry on desktop; afterwards the desktop dropdown is not shown |
| NavDropdown.Dropdown.OnLayout | components/NavDropdown.tsx:67-72 | the stored height follows every positive measured height, ignores the others and never becomes negative |
| NavDropdown.MenuOnSubPage | constants/navigation.ts:10-36 | on `/coaching/technique` the Coaching entry starts open and is highlighted, and Home starts closed and is not highlighted |
| Header.StripTrailingSlash | components/Header.tsx:17 | one trailing `/` is removed when there is one, and the string is kept otherwise |
| Strings.ReplaceFirst | components/Header.tsx:17 | a string in which the pattern occurs at no position is kept; for the earliest position where it occurs, the result is the prefix before it, the replacement, and the rest after it |
| Strings.IndexOf | components/Header.tsx:17 | the result is the first position where the pattern occurs, or None when it occurs nowhere |
| Header.TitleOfTable | components/Header.tsx:19-40 | each listed path gets its title, and a path gets a title other than ODYSSEY exactly when it is listed |
| Header.ReplaceLeadingGroup | components/Header.tsx:17 | a leading `/(pages)` is what the replace removes |
| Header.NormalizeWithoutGroup | components/Header.tsx:17 | a path without the group segment only loses a trailing slash |
| Header.TitleIgnoresGroup | components/Header.tsx:17-40 | a leading `/(pages)` does not change the title |
| Header.TitleIgnoresTrailingSlash | components/Header.tsx:17-40 | one trailing slash does not change the title |
| Header.HomeTitle | components/Header.tsx:17-39 | `/` normalises to the empty path and gets ODYSSEY from the default branch; only `//` reaches the `/` case |
| Header.PlainPathTitle | components/Header.tsx:17-40 | a plain path gets the same title as it is, with a trailing slash, and inside the route group |
| Header.CoachingTitle | components/Header.tsx:20-21 | `/coaching` and `/(pages)/coaching/` are both titled COACHING |
| Header.ContactPageTitle | components/Header.tsx:34-35 | `/contact/page` is titled CONTACT |
| Header.ContactMenuTitle | components/Header.tsx:34-39 | the menu's `/contact` is titled ODYSSEY |
| Themes.FirstWithId | constants/Themes.ts:284 | the result is the first position with the id, or -1 exactly when no theme has it |
| Themes.Find | constants/Themes.ts:284 | the result is the first theme with the id, or None exactly when no theme has it |
| Themes.GetThemeById | constants/Themes.ts:283-285 | the result is always a theme of the table |
| Themes.ThemeIdsDistinct | constants/Themes.ts:64-281 | the table's ids are `default-dark`, `blue-gold`, `default-light` and `odyssey-dark`, pairwise distinct |
| Themes.GetThemeByOwnId | constants/Themes.ts:283-285 | looking up a table theme's own id returns that theme |
| Themes.GetThemeByKnownId | constants/Themes.ts:284 | a known id returns a theme with that id |
| Themes.GetThemeByUnknownId | constants/Themes.ts:284 | an unknown id returns the first theme, `default-dark` |
| ThemeColor.OverrideWinsForEveryName | hooks/useThemeColor.ts:15-18 | a non-empty override for the current theme's id gives one colour for every colour name and every theme with that id |
| ThemeColor.ThemeEntryWithoutOverride | hooks/useThemeColor.ts:15-21 | without a usable override the hook answers exactly for the theme's own colour names, with an entry the theme's colours hold under that name |
| ThemeColor.OtherOverridesIgnored | hooks/useThemeColor.ts:15 | overrides for other themes' ids never change the result |
| ThemeColor.EmptyOverrideIsAbsent | hooks/useThemeColor.ts:17 | an empty override behaves as no override |
| ThemeColor.UnknownThemeUsesDefaultDark | constants/Themes.ts:283-285 | with no override, a theme id that is not in the table gets the colours of `default-dark` |
| Sequences.FindIndex | app/admin/coach/index.tsx:105-106 | the result is the first position of the value, or -1 exactly when the value is absent |
| Sequences.RemoveAt | app/admin/coach/index.tsx:108 | removing one position shifts the later elements down by one |
| Sequences.InsertAt | app/admin/coach/index.tsx:108 | the inserted value lands at its position and the others shift around it |
| Sequences.MoveLands | app/admin/coach/index.tsx:108 | after `arrayMove` the moved element sits at the target position |
| Sequences.MoveKeepsOthersInOrder | app/admin/coach/index.tsx:108 | taking the moved element back out leaves the other elements in their old relative order |
| Sequences.MoveIsPermutation | app/admin/coach/index.tsx:108 | `arrayMove` is a permutation |
| Sequences.RemoveAll | components/Admin/CoachForm.tsx:275 | filtering by value removes every copy of the value and keeps every other element's count |
| Sequences.RemoveAllAppend | components/Admin/CoachForm.tsx:332 | filtering distributes over concatenation, so the kept elements stay in order |
| Sequences.RemoveAllIdempotent | components/Admin/CoachForm.tsx:388 | removing a value twice is removing it once |
| Strings.Split | app/admin/themes/ThemeEditor.tsx:68 | `split` never returns an empty list, and no piece holds the separator |
| Strings.JoinSplit | app/admin/themes/ThemeEditor.tsx:68 | joining the pieces of a split gives back the string |
| Strings.SplitJoin | app/admin/themes/ThemeEditor.tsx:318 | splitting a join of separator-free keys gives back the keys |
| Strings.AfterLastIsSuffix | components/Admin/CoachForm.tsx:146 | `split('.').pop()` is the suffix after the last `.`, or the whole name when there is none |
| Coaches.Reorder | app/admin/coach/index.tsx:105-108 | the reorder is a permutation; the dragged coach lands at the target's old position; the others keep their relative order |
| Coaches.Restamp | app/admin/coach/index.tsx:111-114 | every `order_index` becomes the coach's position, and nothing else changes |
| Coaches.DragEnd | app/admin/coach/index.tsx:101-116 | a drop with no target or onto the dragged coach leaves the list alone; no drop changes the length |
| Coaches.RestampForgetsIndices | app/admin/coach/index.tsx:111-114 | the new indices depend only on positions, not on the old indices |
| Coaches.DragEndReorders | app/admin/coach/index.tsx:103-114 | after a drop onto another coach, the indices are exactly the positions, the ids are the old ids with the dragged id moved to the target's position, and no id is lost |
| Coaches.UpdateStep | lib/supabase.ts:102-151 | `updateCoach` throws exactly when the update or the read-back fails or the id has no row; only that row can change, and it holds the new coach unless the update itself failed |
| Coaches.PersistFrom | app/admin/coach/index.tsx:119-121 | the loop from a position makes at least one more call when it throws, makes every call when it does not throw, and keeps the table's ids |
| Coaches.PersistAll | app/admin/coach/index.tsx:119-121 | the whole loop makes every call unless one throws |
| Coaches.PersistPrefix | app/admin/coach/index.tsx:119-121 | the loop stops at the first reply that is not `Ok`; the coaches before it hold their new row and the ones after it their old row; the failing coach holds its new row exactly when its read-back failed after the write; rows of coaches not in the list are untouched |
| Coaches.PersistAllOk | app/admin/coach/index.tsx:119-121 | when every call succeeds, every coach of the list is stored as given |
| Coaches.StoredOrderMatchesList | app/admin/coach/index.tsx:101-121 | after a drop whose write-back succeeds, every coach's stored `order_index` is its position in the new list |
| Coaches.NewDraft | app/admin/coach/index.tsx:39-56 | the draft has no id, empty lists and links, is visible, and carries the index after the current coaches |
| Coaches.RestampAppendDraft | app/admin/coach/index.tsx:44 | a draft appended to a re-stamped list keeps every index equal to its position |
| Coaches.Table.UpdateCoach | lib/supabase.ts:102-151 | one call applies `UpdateStep` to the table and is logged |
| Coaches.Table.Insert | app/admin/coach/index.tsx:79-88 | a successful insert adds the row under the id the database gives it; a failed one changes nothing |
| Coaches.AdminCoaches.constructor | app/admin/coach/index.tsx:13-15 | the screen starts with no coaches and no form |
| Coaches.AdminCoaches.FetchAllCoaches | app/admin/coach/index.tsx:24-33 | the list is replaced exactly when the query has no error and returned data |
| Coaches.AdminCoaches.HandleAddNew | app/admin/coach/index.tsx:39-58 | the form opens on a draft placed after the current coaches |
| Coaches.AdminCoaches.Edit | app/admin/coach/index.tsx:155 | the form opens on the chosen coach |
| Coaches.AdminCoaches.Cancel | app/admin/coach/index.tsx:138 | the form closes and the list is kept |
| Coaches.AdminCoaches.HandleSave | app/admin/coach/index.tsx:60-99 | a coach without an id is inserted and one with an id goes through `updateCoach`; on success the list is fetched again and the form closes; when it throws, the list and the form stay |
| Coaches.AdminCoaches.Persist | app/admin/coach/index.tsx:119-121 | the loop makes one `updateCoach` per coach in list order, stops at the first that throws, and ends in the state `PersistAll` describes |
| Coaches.AdminCoaches.HandleDragEnd | app/admin/coach/index.tsx:101-122 | a drop with no target or onto itself changes nothing and makes no call; otherwise the re-stamped list replaces the local list, even when a write throws, and the write-back runs over exactly that list |
| CoachForm.WithText | components/Admin/CoachForm.tsx:211-228 | the edited text field takes the text and every other field is kept |
| CoachForm.WithBio | components/Admin/CoachForm.tsx:401-424 | the edited part of `full_bio` takes the text and the other two are kept |
| CoachForm.WithLink | components/Admin/CoachForm.tsx:432-445 | the edited link is set and shown, and the other links, YouTube among them, are kept |
| CoachForm.WithList | components/Admin/CoachForm.tsx:275-276 | the edited list is replaced and the other lists and fields are kept |
| CoachForm.DragItems | components/Admin/CoachForm.tsx:196-204 | a drop with no target or onto itself keeps the list; otherwise the result is a permutation where the dragged value sits at the target's first position and the others keep their order, with the first occurrence of the dragged value moved |
| CoachForm.DragMovesFirstOccurrence | components/Admin/CoachForm.tsx:200-203 | with a repeated value the first occurrence moves |
| CoachForm.FileExtension | components/Admin/CoachForm.tsx:146 | the extension is the dot-free suffix after the last `.`, or the whole name when there is no `.` |
| CoachForm.UploadPathsKeepExtension | components/Admin/CoachForm.tsx:145-167 | both storage paths end in the uploaded file's extension |
| CoachForm.Form.constructor | components/Admin/CoachForm.tsx:122-143 | the form edits the given coach, or the default coach when there is none, with empty inputs and nothing dragged |
| CoachForm.Form.EditText | components/Admin/CoachForm.tsx:211-228 | the name, role and bio inputs update only their field |
| CoachForm.Form.EditBio | components/Admin/CoachForm.tsx:401-424 | the `full_bio` inputs update only their part |
| CoachForm.Form.EditLink | components/Admin/CoachForm.tsx:432-445 | the Instagram and email inputs update only their link |
| CoachForm.Form.ToggleShow | components/Admin/CoachForm.tsx:452-455 | the toggle flips only `show` |
| CoachForm.Form.TypeQualification | components/Admin/CoachForm.tsx:295-296 | typing sets only the qualification input |
| CoachForm.Form.TypeAchievement | components/Admin/CoachForm.tsx:353-354 | typing sets only the achievement input |
| CoachForm.Form.AddQualification | components/Admin/CoachForm.tsx:301-308 | non-empty typed text is appended to the qualifications and the input is cleared; empty text changes nothing |
| CoachForm.Form.AddAchievement | components/Admin/CoachForm.tsx:359-366 | the same for achievements |
| CoachForm.Form.Remove | components/Admin/CoachForm.tsx:331-334 | Remove filters out every copy of the item from its list |
| CoachForm.Form.DragStart | components/Admin/CoachForm.tsx:261 | the image and qualification lists record the dragged value; the achievement list does not |
| CoachForm.Form.DragEnd | components/Admin/CoachForm.tsx:262-264 | the dragged value is cleared for images and qualifications, and the list is rearranged by `DragItems` |
| CoachForm.Form.UploadProfileImage | components/Admin/CoachForm.tsx:145-163 | the path is `<now>.<ext>`; a failed upload changes nothing, and a successful one sets the profile image to the public URL |
| CoachForm.Form.UploadAdditionalImage | components/Admin/CoachForm.tsx:165-186 | the path is `<now>_<count+1>.<ext>`; a failed upload changes nothing, and a successful one appends exactly one URL to the images |
| CoachForm.Form.Save | components/Admin/CoachForm.tsx:188-194 | the form data is handed on as it is |
| ThemeTree.LookupFound | app/admin/themes/ThemeEditor.tsx:71 | a property read finds a value exactly when the key is one of the object's keys |
| ThemeTree.PutLookup | app/admin/themes/ThemeEditor.tsx:73 | after assigning a key, that key reads the new value and every other key its old one |
| ThemeTree.PutKeys | app/admin/themes/ThemeEditor.tsx:73 | an existing key keeps its position, and a new key is appended at the end |
| ThemeTree.SetPathDefined | app/admin/themes/ThemeEditor.tsx:70-73 | the write succeeds exactly when every key but the last leads to an object, so a missing intermediate key throws and a missing last key is added |
| ThemeTree.SetPathGet | app/admin/themes/ThemeEditor.tsx:64-76 | after a write the path holds the new colour |
| ThemeTree.SetPathParent | app/admin/themes/ThemeEditor.tsx:73 | the object holding the last key gains or overwrites exactly that key |
| ThemeTree.SetPathIsolation | app/admin/themes/ThemeEditor.tsx:68-73 | a path neither on nor through the written path reads the same after the write |
| ThemeTree.LeafIsolation | app/admin/themes/ThemeEditor.tsx:68-73 | every other leaf keeps its colour |
| ThemeTree.SetPathDefinedAtLeaf | app/admin/themes/ThemeEditor.tsx:70-73 | writing at the path of an existing colour always succeeds |
| ThemeTree.RenderEntriesIsLeafPaths | app/admin/themes/ThemeEditor.tsx:317-346 | flattening emits one input per leaf in key-insertion order; the input's key is the dot-joined path from the section root, and its label is the path's last key |
| ThemeTree.LeafPathsSound | app/admin/themes/ThemeEditor.tsx:320-327 | each listed leaf lies at its path |
| ThemeTree.LeafPathsComplete | app/admin/themes/ThemeEditor.tsx:323-346 | every leaf of the object is listed |
| ThemeTree.RenderedAt | app/admin/themes/ThemeEditor.tsx:318-333 | RenderedAt gives each input's key, label and value in terms of the section's leaf paths |
| ThemeTree.PlainRoundTrip | app/admin/themes/ThemeEditor.tsx:318 | splitting the built key at `.` gives back the path |
| ThemeTree.MirrorsGet | app/admin/themes/ThemeEditor.tsx:158-171 | a leaf of a section object that copies the colour tree is found at the same path in that tree |
| ThemeTree.SectionWriteBack | app/admin/themes/ThemeEditor.tsx:316-350 | in a section whose object copies the colour tree, every input's key leads to the leaf it shows, and its label is the key's last part |
| ThemeTree.AddressedWrite | app/admin/themes/ThemeEditor.tsx:64-76 | writing back through such a key succeeds; the shown leaf takes the colour and every other leaf keeps its own |
| ThemeSections.Build | app/admin/themes/ThemeEditor.tsx:107-111 | evaluating a section literal gives an object with the literal's keys, in order |
| ThemeSections.BuildMirrors | app/admin/themes/ThemeEditor.tsx:158-271 | a literal that reads each key from the path it is shown under yields a well-keyed object that copies the colour tree |
| ThemeSections.LayoutWriteBack | app/admin/themes/ThemeEditor.tsx:316-350 | for such a literal, every rendered input writes back to the leaf it shows |
| ThemeSections.RenderFlat | app/admin/themes/ThemeEditor.tsx:346 | an object of single colours renders one input per property, keyed and labelled by its key |
| ThemeLayouts.MainColorsFaithful | app/admin/themes/ThemeEditor.tsx:107-111 | the Main Colors literal reads each key from the path it is shown under |
| ThemeLayouts.BackgroundColorsFaithful | app/admin/themes/ThemeEditor.tsx:118-129 | the same for Background Colors |
| ThemeLayouts.TextColorsFaithful | app/admin/themes/ThemeEditor.tsx:132-146 | the same for Text Colors |
| ThemeLayouts.UIElementsFaithful | app/admin/themes/ThemeEditor.tsx:158-171 | the same for UI Elements |
| ThemeLayouts.FormsFaithful | app/admin/themes/ThemeEditor.tsx:189-212 | the same for Forms |
| ThemeLayouts.CardsFaithful | app/admin/themes/ThemeEditor.tsx:215-232 | the same for Cards |
| ThemeLayouts.NavigationFaithful | app/admin/themes/ThemeEditor.tsx:235-255 | the same for Navigation |
| ThemeLayouts.MiscUIFaithful | app/admin/themes/ThemeEditor.tsx:258-271 | the same for Misc UI |
| ThemeLayouts.MirroredWriteBack | app/admin/themes/ThemeEditor.tsx:105-271 | in these eight sections, every rendered input writes back to the leaf it shows |
| ThemeLayouts.StatusRendered | app/admin/themes/ThemeEditor.tsx:174-186 | as written, the Status section shows five inputs, each keyed and labelled by a top-level name |
| ThemeLayouts.StatusErrorMisaddressed | app/admin/themes/ThemeEditor.tsx:176-177 | the `error` input's key is `["error"]`, so it does not address the colour it shows; writing it adds a top-level `error` and leaves `status.error.background` as it was |
| ThemeLayouts.StatusIconReplacesObject | app/admin/themes/ThemeEditor.tsx:181 | writing the `icon` input replaces the `icon` object by a colour, so `icon.primary` is gone |
| ThemeLayouts.StatusColorsMirroredFaithful | app/admin/themes/ThemeEditor.tsx:176-182 | the corrected Status literal reads each key from the path it is shown under |
| ThemeLayouts.StatusMirroredWriteBack | app/admin/themes/ThemeEditor.tsx:174-186 | with the corrected literal, every Status input writes back to the colour it shows |
| ThemeLayouts.ButtonKeys | app/admin/themes/ThemeEditor.tsx:369-381 | the hand-built button keys are the dot-joined forms of their paths |
| ThemeLayouts.KeyInputAddress | app/admin/themes/ThemeEditor.tsx:360-385 | a colour of a button type gives one input at `button.<type>.<key>`, and an object gives inputs at `button.<type>.<key>.<nested>` labelled `<key> <nested>`; each key leads to the value shown |
| ThemeLayouts.ButtonInputsAddress | app/admin/themes/ThemeEditor.tsx:352-392 | every input of the Button section has a key of three or four parts starting with `button`, that key leads to the value the input shows, and the label is as above |
| ThemeHeap.CopyTop | app/admin/themes/ThemeEditor.tsx:66 | `{ ...prev }` puts a copy of the top-level object at a fresh address, and nothing else changes |
| ThemeHeap.ReadProp | app/admin/themes/ThemeEditor.tsx:71 | a property read throws exactly when it reads from `undefined`; every other read gives a value held in the heap |
| ThemeHeap.WalkStuck | app/admin/themes/ThemeEditor.tsx:70-72 | once the walk has thrown, walking further keys throws too |
| ThemeHeap.WalkToObjPath | app/admin/themes/ThemeEditor.tsx:70-72 | the walk ends at an object exactly when every key leads to an object, and it ends at that object |
| ThemeHeap.StrWrite | app/admin/themes/ThemeEditor.tsx:73 | the assignment sets one property of one object, and every other object is unchanged |
| ThemeHeap.ColorChangeView | app/admin/themes/ThemeEditor.tsx:64-76 | the heap update succeeds exactly when the tree path write does, and the copy then reads out as that write's result |
| ThemeHeap.ColorChangeShares | app/admin/themes/ThemeEditor.tsx:66-73 | a one-key change leaves the previous colours as they were, while a nested change shows in the previous colours too |
| ThemeHeap.ColorChangeKeepsShaped | app/admin/themes/ThemeEditor.tsx:64-76 | every tree-shaped object stays in the heap and stays tree-shaped |
| ThemeHeap.AllocValView | app/admin/themes/ThemeEditor.tsx:436-606 | evaluating a colour literal builds objects that read out as the literal |
| ThemeHeap.AllocKeepsOld | app/admin/themes/ThemeEditor.tsx:61 | building a new object tree changes no object that already existed |
| ThemeEditor.InitialName | app/admin/themes/ThemeEditor.tsx:60 | a missing or empty theme name becomes `New Theme`, and any other name is kept |
| ThemeEditor.TogglePicker | app/admin/themes/ThemeEditor.tsx:79 | no picker is open afterwards exactly when the pressed input was the open one or nothing was pressed; a picker that is open afterwards is the pressed one |
| ThemeEditor.PickerOpenClose | app/admin/themes/ThemeEditor.tsx:78-80 | at most one picker is open, it is the last one toggled, and toggling it twice from closed returns to closed |
| ThemeEditor.ModuleLoaded | app/admin/themes/ThemeEditor.tsx:436 | the default colours object is built in a well-formed heap |
| ThemeEditor.ModuleLoadedView | app/admin/themes/ThemeEditor.tsx:436-606 | that object reads out as the default colours and is tree-shaped |
| ThemeEditor.WalkKeys | app/admin/themes/ThemeEditor.tsx:69-72 | the loop reaches exactly what `WalkTo` describes, throwing where it throws |
| ThemeEditor.ChangeColors | app/admin/themes/ThemeEditor.tsx:65-75 | the updater's body computes exactly the heap update `ColorChange` |
| ThemeEditor.Editor.constructor | app/admin/themes/ThemeEditor.tsx:59-62 | the colours are the given theme's own colours object, which the themes list holds too, or the default colours object itself for a new theme; the heap is unchanged; the name is `InitialName`, and no picker is open |
| ThemeEditor.Editor.HandleColorChange | app/admin/themes/ThemeEditor.tsx:64-76 | the edit succeeds exactly when the path write on the colours does, and the colours then read out as that write; a failed edit is reported as not ok; a nested edit also shows in the previous colours object and a one-key edit does not |
| ThemeEditor.Editor.HandleColorChangeCopying | app/admin/themes/ThemeEditor.tsx:64-76 | the corrected handler succeeds and reads out the same way, and no object that already existed changes, the defaults among them |
| ThemeEditor.Editor.HandlePickerOpen | app/admin/themes/ThemeEditor.tsx:78-80 | the open picker becomes `TogglePicker` of the old one, and nothing else changes |
| ThemeEditor.Editor.SetName | app/admin/themes/ThemeEditor.tsx:98 | the name input sets only the name |
| ThemeEditor.Editor.HandleSave | app/admin/themes/ThemeEditor.tsx:82-89 | the saved theme has the current name and colours; an edited theme keeps its id and active flag, and a new theme has an empty id and is inactive |
| ThemeEditor.DefaultInputBackground | app/admin/themes/ThemeEditor.tsx:522-523 | the default input background is `#1A1A1A`, inside the `input` object |
| ThemeEditor.DefaultInputEdit | app/admin/themes/ThemeEditor.tsx:64-76 | writing white at `input.background` of the default colours succeeds and changes them |
| ThemeEditor.NewThemeEditChangesDefaults | app/admin/themes/ThemeEditor.tsx:61-73 | for a new theme, editing `input.background` succeeds and also changes the default colours object that later new themes start from |
| ThemeEditor.NewThemeCopyingEditKeepsDefaults | app/admin/themes/ThemeEditor.tsx:61-76 | NewThemeCopyingEditKeepsDefaults makes the same edit through the copying handler, which shows the new colour and leaves the defaults as they were |
| ThemeEditor.ExistingThemeEditChangesItsColors | app/admin/themes/index.tsx:162 | an existing theme, mounted with the object the themes list holds, edited at `input.background`: the edit succeeds, and the theme's own colours object then reads out the unsaved colour |
| ThemeEditor.ExistingThemeCopyingEditKeepsItsColors | app/admin/themes/ThemeEditor.tsx:61-76 | the same edit through the copying handler shows the new colour in the editor and leaves the theme's own colours object as it was |

## Left out

- **The backend client, storage and every network call.** Their answers are inputs: the session and profile lookups, `updateCoach` replies, the inserted row's id, the list query's error and data, the upload error, and the public URL.
- **Concurrency.** The model does not cover the asynchronous interleaving of handlers, the stale `formData` captured by the form's closures, or overlapping drags. Each handler runs to completion before the next.
- **Time.** `Date.now()` is a parameter. The `created_at` and `updated_at` timestamps are not stored in the model's rows.
- **Logging.** Console output is left out. `AdminLayout.CheckAuth` keeps only whether an error is logged.
- **Animation, drag overlays, styling and the rendered view.** These are left out. The admin layout's render is reduced to the choice between the loading view and the admin stack.
- **The mobile and desktop render branches of `NavDropdown`.** These are left out beyond the handlers and the desktop-dropdown condition. `contentHeight` is a real number, not a double.
- **Theme activation and saving in the theme list screen.** These call backend functions that are not part of this model.
- **Duplicate and legacy screens.**
  - app/admin/coaches/ is left out.
  - app/admin/layout.tsx is left out; it is a weaker duplicate of the gate.
  - The theme manager stubs are left out.
- **`arrayMove` and `findIndex`.** `arrayMove` is defined by its documented contract: remove at `from`, insert at `to`. The index `-1` that `findIndex` returns for an id missing from the list is not modelled.
- Coaches.Reorder: requires both ids to be in the list. The drag library only reports items of the sortable context, which is built from the list's ids.
- Coaches.DragEnd: requires both ids to be in the list when there is a target, for the same reason.
- Coaches.AdminCoaches.HandleDragEnd: requires both ids to be in the list. It also requires one backend reply per coach, since the loop can make at most that many calls.
- CoachForm.DragItems: requires both values to be in the list, for the same reason as `Coaches.Reorder`.
- CoachForm.Form.DragEnd: requires both values to be in the list, as `CoachForm.DragItems` does.
- Coaches.Table.Insert: the new row's id comes from the database as an input. The other generated columns are not modelled.
- ThemeEditor.Editor.constructor: requires a given theme's colours to be an object held in the page's heap, as the `ThemeColors` type says. The themes list screen that holds that object is not modelled beyond this address.
- ThemeEditor.Editor.HandleColorChange: a failed edit is reported as `ok == false` with the state kept. On the page the TypeError is thrown inside the `setColors` updater, React rethrows it while rendering `ThemeEditor`, and the editor falls to an error boundary. An assignment onto a string, as for a key such as `button.primary.0` where `button.primary` is a string, throws in strict mode, and the model reports it as a failure too.
- ThemeHeap.ReadProp: a property read from a string gives `undefined`. In JavaScript `"abc"["0"]` is `"a"` and `.length` is a number, and inherited properties such as `toString` are found through the prototype chain; neither is modelled. The reads agree for every key the editor's sections build.
- **Key order of integer-like keys.** `ThemeTree.Put`, `ThemeHeap.PutObj` and `ThemeTree.RenderEntries` keep insertion order for every key. JavaScript lists integer-like keys first, in ascending order; no colour key is integer-like.
- ThemeColor.UseThemeColor: a missing colour name gives None where JavaScript gives `undefined`. The hook is modelled for top-level colour names only.
- **Absent coach ids.** An absent coach id is modelled as the empty string, which `!coach.id` treats the same way.

## Findings

| source | as written | input that shows it | evidently intended | confidence | as-written member | corrected member |
|---|---|---|---|---|---|---|
| app/admin/themes/ThemeEditor.tsx:61-76 | `{ ...prev }` copies only the top level, and the loop then assigns into the nested objects shared with the previous colours; a new theme's colours are `defaultThemeColors` itself | a new theme, `handleColorChange("input.background", "#FFFFFF")` | the edit changes only the edited colours; `defaultThemeColors`, which every later new theme starts from, stays as it was | not executed | ThemeEditor.NewThemeEditChangesDefaults | ThemeEditor.NewThemeCopyingEditKeepsDefaults |
| app/admin/themes/index.tsx:162 | the editor is mounted with `theme` from the list, and `useState(theme?.colors || defaultThemeColors)` keeps that very colours object, into which `handleColorChange` assigns nested colours | an existing theme with `input.background` other than `#FFFFFF`; `handleColorChange("input.background", "#FFFFFF")`; Cancel; Edit the same theme again | Cancel discards the unsaved edit: the list's theme keeps its colours | not executed | ThemeEditor.ExistingThemeEditChangesItsColors | ThemeEditor.ExistingThemeCopyingEditKeepsItsColors |
| app/admin/themes/ThemeEditor.tsx:176-182 | the Status literal puts nested colours under the top-level keys `error`, `success`, `warning`, `info` and `icon`, and those keys are what the inputs write | colours with `status.error.background` and no top-level `error`; editing the `error` input | the edit changes `status.error.background` (and the `icon` input changes `icon.primary`) | not executed | ThemeLayouts.StatusErrorMisaddressed | ThemeLayouts.StatusMirroredWriteBack |
