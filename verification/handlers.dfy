/** The decisions the two HTTP handlers make: `labelHandler` validating a
    label request, and the page data `homeHandler` renders. */
module Handlers {
  import opened Wrappers
  import opened Decimal
  import opened Labels
  import opened Pagination
  import opened Listing
  import opened Ordering

  const StatusOK: int := 200
  const StatusBadRequest: int := 400
  const StatusMethodNotAllowed: int := 405
  const StatusInternalServerError: int := 500

  /** `imagesDir`. */
  const ImagesDir: string := "./images"

  /** The parts of a `/label` request the handler reads. A form field that
      is absent reads as the empty string, as `FormValue` returns it. */
  datatype LabelRequest = LabelRequest(httpMethod: string, image: string, labelField: string)

  /** What `labelHandler` decides before it touches the filesystem. */
  datatype LabelDecision =
    | Reject(status: int, message: string)
    | Accept(image: string, labelIndex: int, labelText: string)

  /** Validation in `labelHandler`: only a POST naming an image and a label
      index in `[1, |labels|]` is accepted, and the index selects label
      `labels[index - 1]`. */
  function DecideLabel(req: LabelRequest, labels: seq<string>): (d: LabelDecision)
    ensures d.Accept? <==>
      && req.httpMethod == "POST" && req.image != [] && req.labelField != []
      && Atoi(req.labelField).Some? && 1 <= Atoi(req.labelField).value <= |labels|
    ensures d.Accept? ==>
      && d.image == req.image
      && Atoi(req.labelField) == Some(d.labelIndex)
      && 1 <= d.labelIndex <= |labels|
      && d.labelText == labels[d.labelIndex - 1]
    ensures d.Reject? ==> (d.status == StatusMethodNotAllowed <==> req.httpMethod != "POST")
    ensures d.Reject? ==> d.status == StatusMethodNotAllowed || d.status == StatusBadRequest
    ensures req.httpMethod == "POST" && (req.image == [] || req.labelField == []) ==>
      d == Reject(StatusBadRequest, "Missing image or label")
    ensures req.httpMethod == "POST" && req.image != [] && req.labelField != [] && !d.Accept? ==>
      d == Reject(StatusBadRequest, "Invalid label")
  {
    if req.httpMethod != "POST" then Reject(StatusMethodNotAllowed, "Method not allowed")
    else if req.image == [] || req.labelField == [] then Reject(StatusBadRequest, "Missing image or label")
    else match Atoi(req.labelField)
      case None => Reject(StatusBadRequest, "Invalid label")
      case Some(k) =>
        if k < 1 || k > |labels| then Reject(StatusBadRequest, "Invalid label")
        else Accept(req.image, k, labels[k - 1])
  }

  /** A filesystem step, with paths as the components `filepath.Join`
      receives. */
  datatype FsOp =
    | MkdirAll(dir: seq<string>)
    | MoveFile(src: seq<string>, dst: seq<string>)

  /** The filesystem steps a decision leads to, given whether creating the
      label folder succeeds: create the folder named by the label, then, only
      when that succeeded, move the image from the images directory into that
      folder under its own name. */
  function FilesystemOps(d: LabelDecision, mkdirOk: bool): (ops: seq<FsOp>)
    ensures ops == [] <==> d.Reject?
    ensures d.Accept? ==> 1 <= |ops| <= 2 && ops[0] == MkdirAll([ImagesDir, d.labelText])
    ensures d.Accept? ==> (|ops| == 2 <==> mkdirOk)
    ensures |ops| == 2 ==> ops[1].MoveFile? && ops[1].src == [ImagesDir, d.image] && ops[1].dst == ops[0].dir + [d.image]
  {
    match d
    case Reject(_, _) => []
    case Accept(image, _, text) =>
      if mkdirOk then [MkdirAll([ImagesDir, text]), MoveFile([ImagesDir, image], [ImagesDir, text, image])]
      else [MkdirAll([ImagesDir, text])]
  }

  /** An HTTP response: status and body. */
  datatype Response = Response(status: int, body: string)

  /** `http.Error` writes the message followed by a newline. */
  function ErrorResponse(status: int, message: string): Response {
    Response(status, message + "\n")
  }

  /** The response for a decision, given the outcome of creating the label
      folder and of moving the image. */
  function LabelResponse(d: LabelDecision, mkdirOk: bool, moveOk: bool): Response
  {
    match d
    case Reject(status, message) => ErrorResponse(status, message)
    case Accept(_, _, _) =>
      if !mkdirOk then ErrorResponse(StatusInternalServerError, "Failed to create label directory")
      else if !moveOk then ErrorResponse(StatusInternalServerError, "Failed to move image")
      else Response(StatusOK, "OK")
  }

  /** `labelHandler`: success only for a valid request whose folder creation
      and move both succeed; client errors for invalid requests whatever the
      filesystem would do; a server error when a filesystem step fails. */
  function LabelHandler(req: LabelRequest, labels: seq<string>, mkdirOk: bool, moveOk: bool): (r: Response)
    ensures r.status == StatusOK <==> DecideLabel(req, labels).Accept? && mkdirOk && moveOk
    ensures r.status == StatusOK ==> r.body == "OK"
    ensures r.status == StatusInternalServerError <==> DecideLabel(req, labels).Accept? && !(mkdirOk && moveOk)
    ensures !DecideLabel(req, labels).Accept? ==> r.status in {StatusBadRequest, StatusMethodNotAllowed}
  {
    LabelResponse(DecideLabel(req, labels), mkdirOk, moveOk)
  }

  /** The response reports the last step attempted: no step for a client
      error, a failed folder creation when only that step ran, a failed move
      when both ran and the move failed, and "OK" only after both steps ran
      and succeeded. */
  lemma LabelHandlerSteps(req: LabelRequest, labels: seq<string>, mkdirOk: bool, moveOk: bool)
    ensures var ops := FilesystemOps(DecideLabel(req, labels), mkdirOk);
      var r := LabelHandler(req, labels, mkdirOk, moveOk);
      && (ops == [] <==> r.status in {StatusBadRequest, StatusMethodNotAllowed})
      && (|ops| == 1 <==> r == ErrorResponse(StatusInternalServerError, "Failed to create label directory"))
      && (|ops| == 2 && !moveOk <==> r == ErrorResponse(StatusInternalServerError, "Failed to move image"))
      && (|ops| == 2 && moveOk <==> r == Response(StatusOK, "OK"))
  {
  }

  /** A rejected request performs no filesystem step, so its response does
      not depend on the filesystem. */
  lemma RejectedRequestLeavesFilesystem(req: LabelRequest, labels: seq<string>, mkdirOk: bool, moveOk: bool)
    requires DecideLabel(req, labels).Reject?
    ensures FilesystemOps(DecideLabel(req, labels), mkdirOk) == []
    ensures LabelHandler(req, labels, mkdirOk, moveOk) == LabelHandler(req, labels, true, true)
  {
  }

  /** Posting back the index of a label button selects that button's label. */
  lemma ChoicePostsBackItsLabel(labels: seq<string>, image: string, i: nat)
    requires image != [] && i < |labels| && |labels| <= MaxInt
    ensures var c := LabelChoices(labels)[i];
      DecideLabel(LabelRequest("POST", image, Itoa(c.index)), labels) == Accept(image, i + 1, labels[i])
  {
    assert LabelChoices(labels)[i].index == i + 1;
    var text := Itoa(i + 1);
    AtoiItoa(i + 1);
    AcceptedIndex(LabelRequest("POST", image, text), labels, i + 1);
  }

  lemma AcceptedIndex(req: LabelRequest, labels: seq<string>, k: int)
    requires req.httpMethod == "POST" && req.image != []
    requires Atoi(req.labelField) == Some(k) && 1 <= k <= |labels|
    ensures DecideLabel(req, labels) == Accept(req.image, k, labels[k - 1])
  {
  }

  /** An index outside `[1, |labels|]`, 0 and past-the-end included, is
      rejected as an invalid label. */
  lemma OutOfRangeIndexRejected(labels: seq<string>, image: string, k: int)
    requires image != [] && (k < 1 || k > |labels|)
    ensures DecideLabel(LabelRequest("POST", image, Itoa(k)), labels) == Reject(StatusBadRequest, "Invalid label")
  {
    AtoiItoa(k);
  }

  /** The data `homeHandler` renders. */
  datatype PageData = PageData(images: seq<string>, currentPage: int, totalPages: int, labels: seq<LabelChoice>)

  datatype HomeResponse = Failed(response: Response) | Rendered(data: PageData)

  /** `homeHandler` up to the template: the listing is `None` when the images
      directory cannot be read. */
  method HomeHandler(pageText: string, listing: Option<seq<DirEntry>>, labels: seq<string>) returns (resp: HomeResponse)
    ensures listing.None? ==> resp == Failed(ErrorResponse(StatusInternalServerError, "Failed to read images"))
    ensures listing.Some? ==> resp.Rendered?
    ensures listing.Some? ==>
      var all := SortStrings(ImageNames(listing.value));
      var data := resp.data;
      && data.totalPages == TotalPages(|all|)
      && 1 <= data.currentPage <= data.totalPages
      && data.currentPage == ResolvePage(pageText, |all|)
      && data.images == PageSlice(all, data.currentPage)
      && |data.images| <= ItemsPerPage
      && (|all| > 0 ==> |data.images| > 0)
      && data.labels == LabelChoices(labels)
  {
    if listing.None? {
      return Failed(ErrorResponse(StatusInternalServerError, "Failed to read images"));
    }
    var images := GetImages(listing.value);
    SortedUnique(images, SortStrings(ImageNames(listing.value)));
    var page := ResolvePage(pageText, |images|);
    if |images| > 0 {
      PageNonEmpty(images, page);
    }
    var data := PageData(PageSlice(images, page), page, TotalPages(|images|), LabelChoices(labels));
    return Rendered(data);
  }

  /** With images `dog.jpg` and `cat.png`, the listing is `cat.png, dog.jpg`. */
  lemma TwoImageListing()
    ensures SortStrings(ImageNames([DirEntry("dog.jpg", false), DirEntry("cat.png", false)])) == ["cat.png", "dog.jpg"]
  {
    ExtOfSuffix("dog", ".jpg");
    assert "dog" + ".jpg" == "dog.jpg";
    ExtOfSuffix("cat", ".png");
    assert "cat" + ".png" == "cat.png";
    var entries := [DirEntry("dog.jpg", false), DirEntry("cat.png", false)];
    assert entries[..1] == [DirEntry("dog.jpg", false)];
    assert ImageNames(entries) == ["dog.jpg", "cat.png"];
    assert LexLe("cat.png", "dog.jpg");
  }

  /** With labels A and B, choosing label 2 for `cat.png` moves it to folder
      `B`, and nothing is moved when the folder cannot be created; index 3 is invalid and a GET is refused. */
  lemma TwoLabelScenario()
    ensures var d := DecideLabel(LabelRequest("POST", "cat.png", "2"), ["A", "B"]);
      && d == Accept("cat.png", 2, "B")
      && FilesystemOps(d, true) == [MkdirAll([ImagesDir, "B"]), MoveFile([ImagesDir, "cat.png"], [ImagesDir, "B", "cat.png"])]
      && FilesystemOps(d, false) == [MkdirAll([ImagesDir, "B"])]
    ensures DecideLabel(LabelRequest("POST", "ghost.png", "3"), ["A", "B"]) == Reject(StatusBadRequest, "Invalid label")
    ensures DecideLabel(LabelRequest("GET", "cat.png", "1"), ["A", "B"]) == Reject(StatusMethodNotAllowed, "Method not allowed")
  {
    assert "2"[..0] == [];
    assert "3"[..0] == [];
    assert Atoi("2") == Some(2);
    assert Atoi("3") == Some(3);
  }
}
