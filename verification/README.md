# image-label: a Dafny model of its decision rules

image-label is a small Go web tool (`main.go`) for sorting a folder of images into
label sub-folders. It serves a paginated grid of the images in `./images`. It offers one
button per label read from `./labels.txt`. A `POST /label` request moves an image into
the sub-folder named after the chosen label. On interrupt it zips the label folders.

Almost all of it is HTTP, filesystem and zip plumbing. This project models the pure rules
inside that plumbing and proves what they guarantee:

- **Label registry** (`labels.dfy`, `text.dfy`). `loadLabelChoices` splits the label file
  into lines the way `bufio.Scanner` does, trims each line with `strings.TrimSpace`
  (Go's `unicode.IsSpace` set, written out), keeps the non-blank ones in order, and fails
  when none is left. `homeHandler` numbers the labels from 1.
- **Pagination** (`pagination.dfy`). `homeHandler` turns the untrusted `page` query value
  and the image count into a current page, a page count and the slice of the listing to
  show. The page size is 10.
- **Label requests** (`handlers.dfy`). `labelHandler` accepts only a POST with a
  non-empty image and a label index in `[1, n]` (n the label count). The model turns the request into
  a decision: reject with 405 or 400, or accept with the resolved label text. An accepted
  decision leads to the filesystem steps (create the folder, move the file). Their
  outcomes are inputs to the response.
- **Image listing** (`listing.dfy`, `ordering.dfy`). `getImages` drops directories and
  keeps names whose `filepath.Ext` is one of `.jpg .jpeg .png .gif .bmp .webp`
  (case-sensitive). It sorts them with `sort.Strings`. Go compares strings byte by byte.
  UTF-8 preserves code-point order, so the model compares characters.
- **Integer parsing** (`decimal.dfy`). `strconv.Atoi` is modelled exactly for a 64-bit
  `int`: an optional sign, then one or more ASCII digits, with a value that fits in the
  `int` range. Anything else is an error.

A page number past the last page gives the last page only when it fits in `int`. A larger
one makes `strconv.Atoi` fail, and the handler then shows page 1
(`Pagination.OverflowingPageIsFirstPage`).

## Model

| member | source | states |
|---|---|---|
| `Decimal.Atoi` | main.go:292 | The text parses exactly when it is an optional `+`/`-` followed by one or more ASCII digits whose value fits in a 64-bit `int` (down to -2^63 after a `-`). The parsed value is the digits' value, negated after a `-`. |
| `Decimal.AtoiItoa` | main.go:292-293 | Parsing the decimal form of any integer gives that integer back when it fits in `int`, and an error otherwise. An overflowing number is not clamped. |
| `Decimal.AtoiPadded` | main.go:208 | A `+` sign or leading zeros in front of a number's digits parse to the same result as its canonical decimal form, and a `-` sign to its negation: `007` and `+7` read as 7, `-007` as -7. |
| `Decimal.AtoiRejectsMalformed` | main.go:208-209 | `Atoi` returns an error for the empty string, a lone sign, a leading or trailing space and an underscore, and parses `-0` to 0 and `+07` to 7. |
| `Text.TrimSpace` | main.go:98 | The trimmed line has no whitespace at either end and is no longer than the line. It is empty exactly when the line is all whitespace. |
| `Text.TrimSpaceCutsOnlySpace` | main.go:98 | The trimmed line is the slice of the line that starts at its first non-whitespace character (or at its end when there is none). Every character cut off on either side is whitespace. |
| `Text.TrimSpaceOfPadded` | main.go:98 | Whitespace padding around an already-trimmed text is exactly what trimming removes. |
| `Text.TrimSpaceIdempotent` | main.go:98 | Trimming a trimmed line changes nothing. |
| `Text.ScanLines` | main.go:96-97 | No scanned line contains a newline. Data yields lines exactly when it is non-empty. |
| `Text.ScanLinesFirst` | main.go:96-97 | The first line runs up to the first newline, with one trailing carriage return dropped, and the remaining lines are the scan of the text after that newline. |
| `Text.ScanLinesFinal` | main.go:96-97 | A non-empty text without a newline is returned as one line, with one trailing carriage return dropped. |
| `Text.ScanJoinLines` | main.go:96-97 | Scanning a file made of newline-terminated lines gives back those lines, for lines without a newline or a trailing carriage return. |
| `Text.ScanJoinLinesFinal` | main.go:96-97 | Scanning a file whose last line has no newline gives back every line, the unterminated last one included, with one trailing carriage return dropped from it. |
| `Text.ScanLinesAllSpace` | main.go:96-102 | The scanned lines are all whitespace exactly when the file content is. |
| `Labels.NonBlankIndices` | main.go:97-101 | The positions of the non-blank lines, strictly increasing and in range. A position is listed exactly when its line is non-blank. |
| `Labels.TrimmedNonBlankSelects` | main.go:95-102 | The k-th label is the trimmed text of the k-th non-blank line. There is one label per non-blank line, so order and duplicates are kept. |
| `Labels.TrimmedNonBlankWellFormed` | main.go:98-100 | Every label is non-empty and has no leading or trailing whitespace. |
| `Labels.TrimmedNonBlankEmpty` | main.go:99-110 | No label is produced exactly when every line is blank. |
| `Labels.LoadLabelChoices` | main.go:95-112 | The loader loop fails with "no labels" exactly when every line is blank. Otherwise it returns the non-empty sequence of trimmed non-blank lines, each non-empty and trimmed. |
| `Labels.LoadLabelFile` | main.go:95-112 | Loading the file contents fails exactly when the file holds nothing but whitespace. On success the labels are the trimmed non-blank scanned lines, and none contains a newline. |
| `Labels.NoNewlineInLabels` | main.go:97-100 | Labels cut from lines without newlines contain no newline. |
| `Labels.LabelChoices` | main.go:244-250 | Choice `i` is `(i + 1, labels[i])`. Every choice's index lies in `[1, n]` (n the label count) and selects its own text via `labels[index - 1]`. |
| `Pagination.TotalPages` | main.go:222-226 | The page count is at least 1 and holds every image. It is 1 or leaves no empty last page, so it equals `max(1, ceil(n / 10))`. |
| `Pagination.ResolvePage` | main.go:207-229 | The shown page is always in `[1, TotalPages]`. Unparsable or < 1 gives 1. Greater than the page count gives the last page. Otherwise the requested page is kept. |
| `Pagination.PageSlice` | main.go:231-241 | At most 10 items. When the page start is inside the listing, exactly `min(10, n - start)` items. Otherwise none. Item `i` of the page is item `(page - 1) * 10 + i` of the listing. |
| `Pagination.PageNonEmpty` | main.go:232-241 | Every page in range of a non-empty listing shows at least one image. |
| `Pagination.PagesPrefix` | main.go:232-241 | For every k, pages 1 to k together are the first `min(10k, n)` items, in order. |
| `Pagination.PagesCoverListing` | main.go:222-241 | Concatenating pages 1 to `TotalPages` reproduces the whole listing, without gap or overlap. |
| `Pagination.ItemOnOnePage` | main.go:232-236 | Item `i` lies on page `q` exactly when `q = i / 10 + 1`. |
| `Pagination.OverflowingPageIsFirstPage` | main.go:208-211 | A page number above the `int` range is a parse error and resolves to page 1. |
| `Pagination.PageNumberClamped` | main.go:208-229 | Any page number within the `int` range is clamped into `[1, TotalPages]`. |
| `Ordering.SortStrings` | main.go:348 | The sorted listing is ascending in Go's string order and a permutation of its input. |
| `Ordering.SortedUnique` | main.go:348 | Two ascending arrangements of the same multiset of names are equal, so the sorted listing is fully determined. |
| `Ordering.LexLeTotal` | main.go:348 | Go's string order is total. |
| `Ordering.LexLeTransitive` | main.go:348 | Go's string order is transitive. |
| `Ordering.LexLeAntisymmetric` | main.go:348 | Strings ordered both ways are equal. |
| `Listing.Ext` | main.go:340 | The extension is a suffix of the name. It is empty, or it starts with the last `.` of the final path element and contains no further `.` or `/`. When it is empty, every `.` is followed by a `/`. |
| `Listing.ExtOfSuffix` | main.go:340 | A name ending in a dot-extension without further dots or slashes has exactly that extension. |
| `Listing.ExtensionExamples` | main.go:340-343 | `cat.JPG` is rejected (case-sensitive). `archive.tar.png` and the dot-file `.png` are accepted. `photo.png.txt`, `png` and a directory named `album.png` are rejected. |
| `Listing.ImageNamesMembership` | main.go:333-345 | A name is kept exactly when some entry with that name is not a directory and has an allowed extension. |
| `Listing.GetImages` | main.go:327-349 | The listing is sorted and is a permutation of the qualifying names. A name appears exactly when a qualifying non-directory entry has it. Every listed name has an allowed extension. |
| `Handlers.DecideLabel` | main.go:278-299 | A request is accepted exactly when it is a POST with a non-empty image and a label index parsing into `[1, n]` (n the label count). An accepted index `k` resolves to `labels[k-1]`. A non-POST gives 405, a missing field gives 400 "Missing image or label", and a bad index gives 400 "Invalid label". |
| `Handlers.FilesystemOps` | main.go:301-318 | A rejected request has no filesystem step. An accepted one first creates the folder named by the resolved label. Only when that succeeds does it take a second step, moving the image out of the images directory into that same folder under its own file name. |
| `Handlers.LabelHandlerSteps` | main.go:306-324 | The response matches the steps taken: 400 or 405 exactly when there is none, "Failed to create label directory" exactly when only the folder step ran, "Failed to move image" exactly when the move ran and failed, and "OK" exactly when both ran and succeeded. |
| `Handlers.LabelHandler` | main.go:278-325 | The response is 200 "OK" exactly when the request is valid and both filesystem steps succeed. It is 500 exactly when the request is valid and a step fails. An invalid request gives 400 or 405. |
| `Handlers.RejectedRequestLeavesFilesystem` | main.go:279-296 | A rejected request performs no filesystem step, and its response does not depend on the filesystem. |
| `Handlers.ChoicePostsBackItsLabel` | main.go:292-299 | Posting back the decimal index of any label button is accepted and selects that button's label. |
| `Handlers.OutOfRangeIndexRejected` | main.go:292-296 | Any index below 1 or above the label count, 0 included, is rejected as an invalid label. |
| `Handlers.HomeHandler` | main.go:205-258 | An unreadable directory gives 500. Otherwise the page data holds the page count, the clamped current page, and that page's slice of the sorted qualifying names (at most 10, non-empty when there are images). It also holds the numbered labels. |
| `Handlers.TwoImageListing` | main.go:333-348 | With files `dog.jpg` and `cat.png`, the listing is `cat.png, dog.jpg`. |
| `Handlers.TwoLabelScenario` | main.go:279-311 | With labels A and B, label 2 for `cat.png` moves it to `images/B/cat.png`, and nothing is moved when folder B cannot be created. Index 3 is invalid, and a GET is refused. |

## Left out

- HTTP serving, routing, the `/images/` file server and the HTML template (main.go:79-85, 260-275) are network and rendering code in libraries. A template failure (another 500) is not modelled. `templates/index.html` is not part of this model. The model assumes each label button posts its index in decimal (`Itoa`).
- Signal handling and the shutdown goroutine (main.go:63-76) are concurrency and process exit.
- `createResultZip` and `cleanLabelSubfolders` (main.go:115-203) walk directories, write zip data and delete trees in library code.
- `moveFile` and `os.MkdirAll` (main.go:307-318, 352-379) are OS filesystem calls. Their success or failure is an input to `Handlers.FilesystemOps` and `Handlers.LabelHandler`.
- Opening the label file, `bufio.Scanner` read errors and its 64 KiB line limit (main.go:89-93, 104-106) are I/O. The model starts from the file contents or the line sequence.
- `os.ReadDir` is I/O. The model takes its entries as a sequence, or `None` when the directory cannot be read.
- `filepath.Join` normalisation is not modelled. Paths are kept as component lists, so the model does not show that an image name containing `..` or `/` can name a file outside `./images`.
- `Listing.Ext`: only `/` is a path separator, as on Unix. Windows' `\` is not modelled.
- Go strings are byte sequences that may be invalid UTF-8. The model's strings are sequences of Unicode scalar values.
- Which of the request body or URL query `FormValue` reads a field from is not modelled. The request carries the resolved field values.
- Logging is not modelled.
