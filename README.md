# A verified model of a portfolio blog's client-side logic

The system is a React front end for a personal portfolio and blog whose
posts live behind a remote PHP backend. It has a public listing and reading
pages (English, with optional Burmese text), and an admin area behind a login.
The admin area can create and edit posts in a rich-text editor, upload images
and crop them before upload. This project models the parts of that front end
that make decisions, and proves what they promise:

- **Post forms** (`PostForm`, `CreatePost`, `EditPost`). The slug derived from a title, the
  required-field check, the image-file checks and the payload sent on create
  and update. It also covers how the edit page finds its post by the route id
  and fills its form, and the featured-image editor's open, save and cancel
  transitions.
- **Listings and reading** (`Blog`, `Admin`, `BlogPost`). The case-insensitive searches
  (title or description on the blog, title only on the dashboard), excerpts,
  the fetch handlers' state updates, the dashboard's create-or-update submit
  and the English/Burmese content choice.
- **HTTP adapter** (`Api`). `getAllPosts`' status check and wrapping, and the
  request interceptor. The interceptor adds a bearer token exactly for URLs
  that contain a protected endpoint path.
- **Session store and route guard** (`AuthContext`, `ProtectedRoute`). A class
  over `user`, `loading`, `isAuthenticated` and the browser's local storage.
  The guard chooses the spinner, a redirect to `/login`, or the page.
- **Rich-text image insertion** (`QuillImageHandler`, `QuillWithImageEditor`).
  The editor document is a sequence of UTF-16 code units and image embeds,
  with a cursor. `insertImage` puts an "uploading" placeholder in and then
  replaces it with the image or removes it. The host component holds the
  pending request.
- **Crop editor** (`ImageEditor`). Rotation, the preset crops, the
  `completedCrop || crop` fallback, and the mapping from the displayed image to
  the intrinsic one. Also the canvas `generateDownload` draws on and when
  `onSave` is called, all with exact `real` arithmetic.

JavaScript semantics that decide outcomes are written out in the shared modules:
- `Text`: `toLowerCase` restricted to ASCII, `trim` over ECMAScript's white-space set,
  `startsWith`, and `parseInt` without a radix (a `0x` prefix, a sign, leading
  white space, `NaN` as `None`).
- `Seqs`: `filter` and `includes`.
- `Wrappers`: truthiness of optional strings.

Backend replies are inputs: each handler receives the reply it awaits as a datatype
(`HttpReply`, `UploadReply`, `VerifyReply`, `LoginReply`, `SingleReply`,
`CallOutcome`). It states the page state it leaves behind.

Two behaviours of the code worth knowing:
- `drawImage` is given neither the scale nor the rotation the editor's sliders set, so the saved
  image ignores both, in the code and in the model.
- `checkAuthStatus` has no guard against finishing late: a check that completes after a
  `login` overwrites the session that login set, and nothing in the model prevents it either.

## Model

| member | source | states |
|---|---|---|
| PostForm.SlugifyIsSlug | src/pages/CreatePost.js:108-111 | Every derived slug uses only `[a-z0-9-]`, never has two hyphens in a row, and neither starts nor ends with a hyphen |
| PostForm.SlugifyIdempotent | src/pages/CreatePost.js:108-111 | Deriving the slug of a slug returns it unchanged |
| PostForm.SlugKeepsAlnums | src/pages/CreatePost.js:108-111 | The slug keeps every ASCII letter and digit of the lowercased title, in order, and no other letter or digit |
| PostForm.NoAlnumTitleEmptySlug | src/pages/CreatePost.js:110-111 | A title with no character whose lowercase is an ASCII letter or digit (e.g. an all-Burmese title) gives the empty slug, given ASCII-only lowercasing (see `Text.Lower` under "## Left out") |
| PostForm.CollapseTwoWords | src/pages/CreatePost.js:108-110 | Two words of `[a-z0-9]`, each followed by a run of other characters, become the two words each followed by a single hyphen |
| PostForm.HelloWorldSlug | src/pages/CreatePost.js:108-111 | "Hello, World! " gives "hello-world" |
| PostForm.RequiredFilledIffTrimmed | src/pages/CreatePost.js:100-103 | The required check passes exactly when neither the trimmed title nor the trimmed content is empty, i.e. neither is entirely white space |
| Text.TrimEmptyIffBlank | src/pages/BlogPost.js:61 | `trim()` yields the empty string exactly when every character is ECMAScript white space |
| Text.Lower | src/pages/Blog.js:33-34 | `toLowerCase` keeps the length and lowercases each ASCII capital, leaving every other character |
| Text.LowerIdempotent | src/pages/Blog.js:33-34 | Lowercasing an already lowercased term changes nothing |
| Text.ParseIntDecimal | src/pages/EditPost.js:35 | `parseInt` of a natural number's decimal rendering gives that number back |
| CreatePost.CheckImageFile | src/pages/CreatePost.js:50-59 | A type not starting with `image/` is refused first; otherwise a size above 5×1024×1024 bytes is refused; exactly the other files are accepted |
| CreatePost.SizeBoundary | src/pages/CreatePost.js:56 | An image of exactly 5 MB is accepted and one byte more is refused |
| CreatePost.CreatePayload | src/pages/CreatePost.js:113-119 | The created post has the title, its slug, the content as description unless the content is empty (then the description), and the Burmese text and image of the form |
| CreatePost.CreatePayloadSlug | src/pages/CreatePost.js:108-115 | The slug sent on create is well formed |
| CreatePost.CreatePostPage.constructor | src/pages/CreatePost.js:10-19 | An empty form, nothing loading or uploading, and no preview |
| CreatePost.CreatePostPage.HandleImageUpload | src/pages/CreatePost.js:45-93 | No file or a file failing the checks never reaches the upload; a reply naming a file sets the form image and the preview to the same `uploads/` URL; any other reply leaves both; `uploadingImage` ends false after an upload |
| CreatePost.CreatePostPage.HandleSubmit | src/pages/CreatePost.js:97-130 | Nothing is sent when the title or content is blank; otherwise the create payload is sent, a completed call navigates, and `loading` ends false; the form is untouched |
| EditPost.FindPost | src/pages/EditPost.js:35 | The result is the first post whose id equals the parsed route id, or none when no post has it (`NaN` matches nothing) |
| EditPost.RouteFindsPost | src/pages/EditPost.js:35 | The route id written for a post with a non-negative id finds a post with that id, no later than it |
| EditPost.FormFromPost | src/pages/EditPost.js:38-45 | The loaded form keeps id, title and description, and takes the description (or `''`) as content and `''` for a missing Burmese text or image |
| EditPost.PreviewFor | src/pages/EditPost.js:46 | The preview is the served-image URL of a truthy image name, and empty otherwise |
| EditPost.UpdatePayload | src/pages/EditPost.js:155-162 | The update carries the loaded id, the title, its slug and the content as the description |
| EditPost.PostsOf | src/pages/EditPost.js:34 | `data` when present, the empty list otherwise |
| EditPost.LoadedBody | src/pages/EditPost.js:33-34 | Posts can be read exactly from an ok reply with a non-null body |
| EditPost.EditPostPage.constructor | src/pages/EditPost.js:14-27 | The initial form, preview and editor state, with the post still loading |
| EditPost.EditPostPage.LoadOnMount | src/pages/EditPost.js:30-63 | Without a route id nothing happens; with one, a found post fills the form and the preview, and a missing post or a failed load leaves the form and navigates away; loading the post ends either way |
| EditPost.EditPostPage.HandleImageUpload | src/pages/EditPost.js:89-103 | A chosen file is kept with its data URL and opens the image editor; no file changes nothing |
| EditPost.EditPostPage.HandleImageEditSave | src/pages/EditPost.js:105-124 | A reply naming a file sets the form image and the preview to its URL and closes the editor; otherwise nothing changes |
| EditPost.EditPostPage.HandleImageEditCancel | src/pages/EditPost.js:126-130 | The editor closes and the original image file and URL are cleared |
| EditPost.EditPostPage.HandleEditExistingImage | src/pages/EditPost.js:132-137 | The editor opens on the preview only when there is a preview |
| EditPost.EditPostPage.HandleSubmit | src/pages/EditPost.js:139-173 | Nothing is sent when the title or content is blank; otherwise the update payload is sent, a completed call navigates, and `loading` ends false; the form, the preview and the image editor's inputs are untouched |
| Seqs.IncludesAt | src/pages/Blog.js:32-35 | An occurrence at any index makes `includes` true |
| Seqs.IncludesHasIndex | src/pages/Blog.js:32-35 | Conversely, when `includes` is true there is an index where the searched text occurs |
| Blog.FilterPosts | src/pages/Blog.js:32-35 | The listing fails (the render throws) exactly when some post neither matches by title nor has a description; otherwise it is the posts whose title or description contains the term, ignoring ASCII case |
| Blog.EmptySearchListsAll | src/pages/Blog.js:32-35 | With an empty search every post is listed, in order |
| Blog.ListedIffMatches | src/pages/Blog.js:32-35 | A post is listed exactly when it is one of the posts and its title or raw description contains the term |
| Blog.ListingKeepsOrder | src/pages/Blog.js:32-35 | The listing is a subsequence of the fetched posts |
| Blog.SearchIgnoresTermCase | src/pages/Blog.js:33-34 | Searching for a term and for its lowercase form lists the same posts |
| Blog.Truncate | src/pages/Blog.js:51-55 | Text within the limit is returned unchanged; longer text becomes its first `maxLength` characters followed by "...", exactly `maxLength + 3` long |
| Blog.Excerpt | src/pages/Blog.js:45-55 | The text extracted from the description's markup is kept when it has at most 150 characters and otherwise cut to its first 150 followed by "..."; an excerpt is at most 153 characters; a `null` description gives an empty excerpt |
| Blog.BlogPage.constructor | src/pages/Blog.js:8-11 | No posts, loading, no error, no search |
| Blog.BlogPage.SetSearchTerm | src/pages/Blog.js:372 | The search term becomes the input's value and nothing else changes |
| Blog.BlogPage.FetchPosts | src/pages/Blog.js:17-30 | Posts are replaced only by a reply carrying a `data` list; a failed call or a null body sets the error and keeps the posts; loading ends false |
| Admin.AdminFilter | src/pages/Admin.js:152-154 | The dashboard listing never grows the list, and every listed post has the lowercased term in its lowercased title |
| Admin.AdminListedIffTitleMatches | src/pages/Admin.js:152-154 | A post is listed exactly when its lowercased title contains the lowercased term |
| Admin.AdminIgnoresDescription | src/pages/Admin.js:152-154 | Changing a post's description never changes whether it is listed |
| Admin.AdminEmptySearchListsAll | src/pages/Admin.js:152-154 | With an empty search every post is listed, in order |
| Admin.AdminKeepsOrder | src/pages/Admin.js:152-154 | The listing is a subsequence of the fetched posts |
| Admin.SaveRequestFor | src/pages/Admin.js:70-74 | An edited post is updated with its id and the form; otherwise the form is created |
| Admin.FetchedPosts | src/pages/Admin.js:41-63 | The reply's `data` list when there is one; the empty list for a `message` body, any other body or a thrown call |
| Admin.AdminPage.constructor | src/pages/Admin.js:24-33 | No posts, nothing loading, the form hidden and empty |
| Admin.AdminPage.FetchPosts | src/pages/Admin.js:41-63 | The posts become `FetchedPosts` of the reply and loading ends false; the form is untouched |
| Admin.AdminPage.HandleSubmit | src/pages/Admin.js:65-86 | The create-or-update request is sent; a completed call resets the form to empty, hides it, clears the edited post and refreshes; a thrown call leaves the form; loading ends false |
| Admin.AdminPage.HandleEdit | src/pages/Admin.js:88-96 | The post is remembered, exactly its title, image and description are copied, and the form is shown |
| BlogPost.Toggle | src/pages/BlogPost.js:56-58 | The language always changes |
| BlogPost.ToggleInvolution | src/pages/BlogPost.js:56-58 | Toggling twice restores the language |
| BlogPost.HasBurmeseContentIff | src/pages/BlogPost.js:67-69 | There is Burmese content exactly when there is a post whose Burmese text is present and not all white space |
| BlogPost.CurrentContent | src/pages/BlogPost.js:60-65 | Burmese text exactly in Burmese mode with non-blank Burmese text, the description otherwise |
| BlogPost.EnglishShowsDescription | src/pages/BlogPost.js:60-65 | In English mode the description is always shown |
| BlogPost.ToggleSwitchesText | src/pages/BlogPost.js:56-65 | For a post with Burmese text, a language and its toggle show the description and the Burmese text between them |
| BlogPost.BlogPostPage.constructor | src/pages/BlogPost.js:9-12 | No post, loading, no error, English |
| BlogPost.BlogPostPage.View | src/pages/BlogPost.js:71-197 | The spinner exactly while loading; the error (or "Post not found") exactly when there is an error or no post; otherwise the current text, with the toggle exactly for Burmese content |
| BlogPost.BlogPostPage.FetchPost | src/pages/BlogPost.js:18-33 | A truthy body becomes the post; a falsy one sets "Post not found" and a thrown call "Failed to fetch blog post", each keeping the post; loading ends false |
| BlogPost.BlogPostPage.ToggleLanguage | src/pages/BlogPost.js:56-58 | The language is toggled and nothing else changes |
| Api.GetAllPosts | src/services/api.js:60-86 | A rejected fetch (or an unparsable body) and a status outside 2xx throw; an ok reply is wrapped as `{ data }` around its parsed body |
| Api.StoredToken | src/services/api.js:25 | The stored token exactly when the key is present |
| Api.AuthorizationFor | src/services/api.js:21-32 | A header is added exactly when the URL contains a protected path and a non-empty token is stored, and it reads `Bearer <token>` |
| Api.RequestConfig.constructor | src/services/api.js:16-17 | A request config holds exactly the URL and headers it is made with |
| Api.InterceptRequest | src/services/api.js:16-41 | The same config comes back with `Authorization` set when the rule applies and with its headers untouched otherwise |
| Api.ProtectedWithSuffix | src/services/api.js:22 | A protected path keeps matching inside any longer URL, such as one with a query string |
| Api.ProtectedAppend | src/services/api.js:22 | Appending to a protected URL keeps it protected |
| Api.ReadUnprotected | src/services/api.js:21-22 | The public post list is fetched without the header |
| Api.AuthEndpointsUnprotected | src/services/api.js:21-22 | The login and logout calls are both sent without the header |
| Api.SlugCanMatchEndpoint | src/services/api.js:22 | Matching is by substring: a single-post read whose slug contains a protected path gets the header |
| Api.UploadedImageUrl | src/pages/CreatePost.js:71 | An uploaded image's URL is the uploads base followed by exactly the file name |
| AuthContext.LoginResultFor | src/contexts/AuthContext.js:55-87 | Success exactly for a successful reply, with its user; a denial carries the server's message; a thrown call carries the response's message or "Login failed"; a failure carries no user |
| AuthContext.ThrownLoginHasMessage | src/contexts/AuthContext.js:82-85 | A thrown login always resolves with a non-empty message |
| AuthContext.Cleared | src/contexts/AuthContext.js:104-105 | Both session keys are gone and every other stored entry is kept |
| AuthContext.AuthProvider.constructor | src/contexts/AuthContext.js:15-17 | No user, loading, not authenticated, storage as the browser has it |
| AuthContext.AuthProvider.ClearAuthData | src/contexts/AuthContext.js:101-106 | Signed out with both keys removed |
| AuthContext.StoredUser | src/contexts/AuthContext.js:29 | The stored user text exactly when the key is present |
| AuthContext.AuthProvider.BeginCheck | src/contexts/AuthContext.js:24-35 | A truthy stored user is shown at once and the check goes on; a missing or empty one is not parsed and the check goes on with the user unchanged; a truthy one that does not parse clears the session and ends loading |
| AuthContext.AuthProvider.EndCheck | src/contexts/AuthContext.js:37-52 | A verified user is signed in and written back to storage; a denial or a thrown call clears the session; loading ends false |
| AuthContext.AuthProvider.CheckAuthStatus | src/contexts/AuthContext.js:24-53 | Loading always ends false, and the session ends authenticated exactly when the backend verifies and the stored user is missing, empty or parses |
| AuthContext.AuthProvider.Login | src/contexts/AuthContext.js:55-87 | Success writes both keys and signs the user in; failure changes nothing; the result is `LoginResultFor` of the reply |
| AuthContext.AuthProvider.Logout | src/contexts/AuthContext.js:89-99 | Whether or not the backend call fails, the session is cleared |
| AuthContext.LoginStoresToken | src/contexts/AuthContext.js:64 | After a successful login the interceptor finds the new token |
| AuthContext.ClearedHasNoToken | src/contexts/AuthContext.js:104 | After the session is cleared the interceptor finds no token |
| ProtectedRoute.Guard | src/components/ProtectedRoute.js:6-104 | The spinner exactly while loading, a redirect to `/login` carrying the location exactly when done and unauthenticated, the page exactly when done and authenticated |
| ProtectedRoute.LoadingTakesPrecedence | src/components/ProtectedRoute.js:11 | While loading the spinner shows whatever the authenticated flag says |
| ProtectedRoute.RenderNeedsUser | src/components/ProtectedRoute.js:103 | The page is rendered only behind a session with a user |
| ProtectedRoute.GuardAfterCheck | src/components/ProtectedRoute.js:11-103 | Once the check has run the spinner is gone, and the page renders exactly when the backend verified the session |
| QuillImageHandler.Utf16Append | src/components/QuillImageHandler.js:82-84 | Text length in code units adds up over concatenation |
| QuillImageHandler.PlaceholderIsLoadingText | src/components/QuillImageHandler.js:82 | The placeholder positions are the loading text's UTF-16 code units |
| QuillImageHandler.PlaceholderLength | src/components/QuillImageHandler.js:82-84 | The loading text has 22 characters but takes 23 positions, all text |
| QuillImageHandler.ShiftForInsert | src/components/QuillImageHandler.js:83 | A user-source insertion moves only a cursor after the index, by the inserted length |
| QuillImageHandler.ShiftForDelete | src/components/QuillImageHandler.js:98 | A deletion keeps a cursor before it, moves one inside it to its start and one after it back by the deleted length |
| QuillImageHandler.Splice | src/components/QuillImageHandler.js:83 | Insertion at an index within the document, or at the end past it |
| QuillImageHandler.Cut | src/components/QuillImageHandler.js:98 | Deleting a span within the document removes exactly it; past the end nothing |
| QuillImageHandler.GetText | src/components/QuillImageHandler.js:123 | Reads at most the requested number of positions, text only |
| QuillImageHandler.CutSplice | src/components/QuillImageHandler.js:83-113 | Deleting what was just inserted restores the document |
| QuillImageHandler.CleanupFindsPlaceholder | src/components/QuillImageHandler.js:121-125 | The 25 positions read at the insert index contain a placeholder inserted there |
| QuillImageHandler.ImageReplacesPlaceholder | src/components/QuillImageHandler.js:94-107 | Replacing the placeholder by the image and a line break leaves the original document with exactly those two inserted at the index |
| QuillImageHandler.Editor.InsertText | src/components/QuillImageHandler.js:83 | The document gains the text at the index and the cursor shifts as Quill shifts it |
| QuillImageHandler.Editor.InsertEmbed | src/components/QuillImageHandler.js:101 | The document gains the image at the index and the cursor shifts |
| QuillImageHandler.Editor.DeleteText | src/components/QuillImageHandler.js:98 | The span is removed and the cursor shifts |
| QuillImageHandler.Editor.SetSelection | src/components/QuillImageHandler.js:84 | The cursor moves to the index, kept within the document |
| QuillImageHandler.InsertIndex | src/components/QuillImageHandler.js:77 | The stored range, else the current cursor, else the end of the document |
| QuillImageHandler.ImageHandler.constructor | src/components/QuillImageHandler.js:4-25 | No stored range and the file input attached |
| QuillImageHandler.ImageHandler.ImageButton | src/components/QuillImageHandler.js:27-44 | The cursor is stored before the picker opens |
| QuillImageHandler.ImageHandler.HandleFileSelect | src/components/QuillImageHandler.js:46-72 | The image editor is asked exactly for an image file, with the file, its data URL and this handler |
| QuillImageHandler.ImageHandler.InsertImage | src/components/QuillImageHandler.js:74-137 | The placeholder is spliced in at the insert index with the cursor after it; a reply naming a file leaves the original document plus the image and a line break, cursor after both; a reply without one restores the document; after a throw the placeholder is deleted only where the cleanup finds it; the stored range ends cleared on every path |
| QuillImageHandler.ImageHandler.ShowPlaceholder | src/components/QuillImageHandler.js:81-83 | The placeholder is spliced into the document at the index, and within the document the cursor ends right after it |
| QuillImageHandler.ImageHandler.ShowUploaded | src/components/QuillImageHandler.js:93-107 | Over a document holding the placeholder at the index, the result is the document without it plus the image and a line break there, with the cursor after both |
| QuillImageHandler.ImageHandler.CleanUpPlaceholder | src/components/QuillImageHandler.js:119-125 | The placeholder's positions are deleted, at the stored range or else the cursor, exactly when the 25 positions read there contain it; otherwise document and cursor stay as they were |
| QuillImageHandler.ImageHandler.Destroy | src/components/QuillImageHandler.js:139-143 | The input is removed only while attached, so a second call does nothing |
| QuillWithImageEditor.QuillHost.constructor | src/components/QuillWithImageEditor.js:11-12 | No handler, no modal, no pending request |
| QuillWithImageEditor.QuillHost.Mount | src/components/QuillWithImageEditor.js:40-61 | A fresh handler on the editor, with no stored range |
| QuillWithImageEditor.QuillHost.HandleImageEdit | src/components/QuillWithImageEditor.js:14-18 | A new request replaces any pending one and opens the modal |
| QuillWithImageEditor.QuillHost.SelectFile | src/components/QuillWithImageEditor.js:14-18 | Only an image file reaches the modal, as a request naming the mounted handler |
| QuillWithImageEditor.QuillHost.HandleImageEditSave | src/components/QuillWithImageEditor.js:20-32 | The pending request's insertion runs exactly when there is one, clearing its stored range; for a reply naming a file the editor's document gains the image and a line break at the insert index, cursor after both; a reply without a filename, or a thrown upload with a stored range, leaves the document as it was with the cursor at the insert index; a thrown upload without a stored range leaves the cleanup's result; the modal and request are cleared whatever happens |
| QuillWithImageEditor.QuillHost.HandleImageEditCancel | src/components/QuillWithImageEditor.js:34-38 | The modal and request are cleared and nothing is inserted |
| QuillWithImageEditor.QuillHost.ModalSource | src/components/QuillWithImageEditor.js:127-133 | The modal is rendered exactly when the flag is set and a request is pending, showing its image |
| QuillWithImageEditor.QuillHost.Unmount | src/components/QuillWithImageEditor.js:63-68 | A mounted handler is destroyed |
| ImageEditor.Rotate | src/components/ImageEditor.js:92-94 | The rotation stays below 360 and a right angle, and adds 90 below 270 |
| ImageEditor.FourRotationsReturn | src/components/ImageEditor.js:92-94 | From a right angle four rotations return, passing through all four right angles |
| ImageEditor.Rotations | src/components/ImageEditor.js:16 | After n rotations from 0 the angle is 90·(n mod 4), one of 0, 90, 180 and 270 |
| ImageEditor.CanvasDim | src/components/ImageEditor.js:45-46 | WebIDL's `unsigned long` conversion of an assigned dimension is below 2^32, and equal to the value's floor for values in range |
| ImageEditor.DisplayedRect | src/components/ImageEditor.js:266-269 | A pixel crop is already in displayed pixels |
| ImageEditor.SourceRect | src/components/ImageEditor.js:40-61 | The corrected source rectangle; for a pixel crop it is the one the code computes |
| ImageEditor.SourceRectAsWritten | src/components/ImageEditor.js:51-61 | The code's source rectangle: the crop's numbers scaled by intrinsic over displayed size, whatever the unit |
| ImageEditor.HalfSizeExample | src/components/ImageEditor.js:40-61 | 800×600 shown at 400×300 with the pixel crop (50, 50, 100, 100) draws (100, 100, 200, 200) |
| ImageEditor.SourceWithinImage | src/components/ImageEditor.js:51-61 | A crop inside the displayed image selects a part of the intrinsic image |
| ImageEditor.FitSelectsWholeImage | src/components/ImageEditor.js:110-118 | The fit-to-screen crop selects the whole intrinsic image |
| ImageEditor.InitialSelectsCentre | src/components/ImageEditor.js:7-13 | The initial crop selects the centred 90% of the intrinsic image |
| ImageEditor.AsWrittenMisreadsPercent | src/components/ImageEditor.js:33-61 | As written, saving the untouched initial crop of 800×600 shown at 400×300 draws (10, 10, 180, 180), not (40, 30, 720, 540) |
| ImageEditor.GenerateDownloadAsWritten | src/components/ImageEditor.js:24-72 | No drawing without both handles; a zero-width or zero-height crop is refused; an image laid out with no area gives no pixels; otherwise the code's source rectangle is drawn on a canvas of its size times the pixel ratio |
| ImageEditor.GenerateDownload | src/components/ImageEditor.js:24-72 | Corrected: the same refusals, and otherwise the corrected source rectangle (a `'%'` crop converted first) on a canvas of its size times the pixel ratio |
| ImageEditor.PixelCropsAgree | src/components/ImageEditor.js:40-61 | For a pixel crop the code's drawing and the corrected one are the same |
| ImageEditor.ZeroAreaNoBlob | src/components/ImageEditor.js:35-38 | A zero-area crop never yields a blob, as written or corrected |
| ImageEditor.FitCanvasSize | src/components/ImageEditor.js:110-118 | Corrected: on a 2× screen the fit crop of an 800×600 image gives a 1600×1200 canvas of the whole image, which yields a blob |
| ImageEditor.FitCanvasAsWritten | src/components/ImageEditor.js:45-61 | As written, the same fit crop gives a 400×400 canvas drawn from the top-left 200×200 of the image |
| ImageEditor.ImageEditorState.constructor | src/components/ImageEditor.js:7-16 | The initial crop, nothing completed, scale 1, rotation 0 |
| ImageEditor.ImageEditorState.CropToUse | src/components/ImageEditor.js:33 | The completed crop when there is one, the current crop otherwise |
| ImageEditor.ImageEditorState.OnCropChange | src/components/ImageEditor.js:267 | The crop becomes the widget's crop |
| ImageEditor.ImageEditorState.OnCropComplete | src/components/ImageEditor.js:268 | The completed crop becomes the widget's crop |
| ImageEditor.ImageEditorState.HandleRotate | src/components/ImageEditor.js:92-94 | The rotation advances by one step and nothing else changes |
| ImageEditor.ImageEditorState.HandleScaleChange | src/components/ImageEditor.js:96-98 | The scale becomes the slider value and nothing else changes |
| ImageEditor.ImageEditorState.ResetCrop | src/components/ImageEditor.js:100-108 | The crop is the initial one again; a completed crop is kept and still wins |
| ImageEditor.ImageEditorState.FitToScreen | src/components/ImageEditor.js:110-118 | The crop is the whole image; a completed crop is kept and still wins |
| ImageEditor.ImageEditorState.HandleSave | src/components/ImageEditor.js:74-90 | Corrected: the crop in use is drawn with the corrected geometry, and `onSave` is called exactly when a blob comes out, which needs both handles and a non-zero crop |

## Left out

- `stripHtml`'s HTML parsing is not modelled: `Blog.Excerpt` takes the text the DOM extracts from markup as a parameter.
- `Blog.Excerpt`: `None` stands for a `null` description; a post without the key (`undefined`) would set the markup "undefined" and show that word, which the model does not distinguish.
- `formatDate` (`Intl` date formatting) is not modelled.
- `Text.Lower`: lowercases ASCII only, not full Unicode `toLowerCase`; the slug and search results agree with the source on ASCII text only. In particular U+212A KELVIN SIGN lowercases to `k` and U+0130 to `i` followed by U+0307 in JavaScript, so such a title yields a non-empty slug in the source where the model gives none.
- `Blog.Truncate`: counts characters, where `length` and `substr` count UTF-16 code units; the two differ only for text with characters above U+FFFF.
- `AuthContext.AuthProvider.BeginCheck`: whether `JSON.parse` accepts a truthy stored user is a parameter; a stored value that parses to something other than a user object (e.g. `null`) is not distinguished.
- `AuthContext.LoginResultFor`: a successful reply without a token or user is not modelled; success always carries both.
- `EditPost.FindPost`: post ids are numbers; an id sent as a JSON string (which `===` never matches) is not modelled.
- Input change handlers (`handleInputChange`, `handleContentChange`, `handleBurmeseContentChange`), `handleCancel`, the dashboard's `handleDelete`, `handleImageUpload`, `handleLogout` and its search box setter are not modelled.
- `FileReader` data URLs, the file input's `value` reset and the `setTimeout` click in `imageHandler` are not modelled; the data URL is a parameter.
- `ImageEditor.GenerateDownload` and `ImageEditor.GenerateDownloadAsWritten`: canvas `toBlob` JPEG encoding, canvas size limits, `NaN` from `parseFloat` and IEEE-754 rounding are not modelled (exact `real`); an image laid out with no area stands for the infinite/undefined scale the source would compute.
- Async interleaving and out-of-order completion are not modelled: each handler runs to completion against the reply it is given.
- Quill's trailing newline, its clamping of indexes to `length - 1`, selection lengths and `'api'`-source shifting are not modelled; the document is a plain sequence with a cursor.
- `QuillImageHandler.Editor.InsertEmbed`: shifts the cursor like an insertion of known length, so a cursor exactly at the index stays; Quill moves it past the embed. `InsertImage` sets the cursor afterwards, so its outcome is the same.
- `ImageEditor.CanvasDim`: HTML's canvas setter replaces a value above 2^31 - 1 by the default size (300 by 150), which the model does not do; `HasBlob` can differ for such huge crops.
- `AuthContext.AuthProvider.EndCheck`: a verify reply with `success` always carries a user here; the code authenticates on `success` alone, so a success without `user` would render the protected page with no user (and store "undefined"). `ProtectedRoute.RenderNeedsUser` and the `Valid` invariant rely on this.
- `QuillImageHandler.ImageHandler.InsertImage`: says nothing about the resulting document when the stored range lies past the end of the document (Quill would clamp it).
- `QuillImageHandler.Editor.SetSelection`: focus effects of `setSelection` are not modelled.
- `QuillImageHandler.ImageHandler.ImageButton` and `QuillImageHandler.InsertIndex`: `getSelection(true)` focuses the editor and returns its saved range, so in Quill it never yields `null`; the model reads the current cursor instead, which may be `None`, so the `getLength()` fallback and the cleanup's search at the cursor are reachable here where they are dead in the source.
- The Quill and react-image-crop widgets themselves, CSS, animation and the landing, navigation, login form and backend-status components are not modelled.
- HTTP transport, `alert`, `console`, `window.confirm` and navigation are not modelled; navigation appears as a returned flag.
- `ImageEditor.ImageEditorState.HandleSave`: draws with the corrected geometry; for a `'%'` crop the code's canvas (`GenerateDownloadAsWritten`) has another size and source, and can yield a blob where the corrected one does not, or the reverse.
- `Api.Post`, `Blog.FilterPosts` and `Admin.AdminFilter`: the backend always sends a string title here. A `null` or missing title would make `post.title.toLowerCase()` throw in both searches (and `formData.title.trim()` in the edit form) even when the post has a description; the model cannot represent such a post, so `Blog.FilterPosts`' failure condition holds only for string titles.
- `BlogPost.BlogPostPage.FetchPost`: a truthy body that is not a post object is not modelled; a truthy body is a post.

## Findings

| source | as written | input that shows it | evidently intended | confidence | as-written member | corrected member |
|---|---|---|---|---|---|---|
| src/components/ImageEditor.js:33-61 | The crop in use is multiplied by intrinsic over displayed size whatever its unit, so the `'%'` crop the editor opens with (and the ones `resetCrop` and `fitToScreen` set) is read as displayed pixels | An 800×600 image shown at 400×300, saved before the crop is touched: the source rectangle is (10, 10, 180, 180) | The centred 90% of the image, (40, 30, 720, 540): a `'%'` crop converted to displayed pixels first | Medium, not executed; it assumes the crop widget reports no completed crop before the first interaction | ImageEditor.SourceRectAsWritten, ImageEditor.GenerateDownloadAsWritten, ImageEditor.AsWrittenMisreadsPercent, ImageEditor.FitCanvasAsWritten | ImageEditor.SourceRect, ImageEditor.GenerateDownload, ImageEditor.FitCanvasSize, ImageEditor.ImageEditorState.HandleSave |
