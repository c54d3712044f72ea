/**
 * ocr-service/main.py: the Flask endpoints. A request's uploaded files,
 * OpenCV's decoder and the recogniser are parameters; a response is a
 * status code and a flat JSON object.
 */
module OcrService {
  import opened Wrappers
  import ExtractCells
  import opened Predict

  /** The JSON values the service puts in a response. */
  datatype JsonValue = JStr(s: string) | JStrArray(items: seq<string>)

  datatype Response = Response(status: nat, body: seq<(string, JsonValue)>)

  /** A part of a multipart upload. */
  datatype FilePart = FilePart(filename: string, bytes: seq<bv8>)

  const NoImage := "No image provided"
  const NoSelectedFile := "No selected file"
  const InvalidImage := "Invalid image file"
  const RetryAdvice := "Try uploading a high quality image with good lighting and angle"
  const ProcessFailed := "Failed to process image"

  /** main.py:14-16. */
  function HealthCheck(): (r: Response)
    ensures r.status == 200 && r.body == [("status", JStr("healthy"))]
  {
    Response(200, [("status", JStr("healthy"))])
  }

  /** Python's truth value of predict's result: `False` and `[]` are falsy. */
  predicate Truthy(out: PredictOutcome) {
    out.IdList? && out.ids != []
  }

  /** main.py:19-54: checks in order, then decode, then predict. */
  function ProcessUpload<Img>(files: map<string, FilePart>, decode: seq<bv8> -> Option<Img>,
                              predict: Img -> PredictOutcome): Response
  {
    if "image" !in files then Response(400, [("error", JStr(NoImage))])
    else if files["image"].filename == "" then Response(400, [("error", JStr(NoSelectedFile))])
    else match decode(files["image"].bytes)
      case None => Response(400, [("error", JStr(InvalidImage))])
      case Some(image) =>
        match predict(image)
        case Raised(e) =>
          Response(500, [("status", JStr("error")), ("message", JStr(ProcessFailed)), ("error", JStr(e))])
        case Falsy => Response(400, [("status", JStr("Failed")), ("message", JStr(RetryAdvice))])
        case IdList(ids) =>
          if ids == [] then Response(400, [("status", JStr("Failed")), ("message", JStr(RetryAdvice))])
          else Response(200, [("status", JStr("success")), ("idArray", JStrArray(ids))])
  }

  /**
   * The responses of process_upload: the request checks come first and in
   * order, an undecodable file is a 400, an exception is a 500 carrying its
   * text, `False` or an empty list is the 400 retry advice, and 200 is given
   * exactly when predict returns a non-empty list, passed through unchanged.
   */
  lemma ProcessUploadOutcomes<Img>(files: map<string, FilePart>, decode: seq<bv8> -> Option<Img>,
                                   predict: Img -> PredictOutcome)
    ensures var r := ProcessUpload(files, decode, predict);
      && r.status in {200, 400, 500}
      && ("image" !in files ==> r == Response(400, [("error", JStr(NoImage))]))
      && ("image" in files && files["image"].filename == "" ==> r == Response(400, [("error", JStr(NoSelectedFile))]))
      && (r.status == 200 <==>
            "image" in files && files["image"].filename != "" && decode(files["image"].bytes).Some?
            && Truthy(predict(decode(files["image"].bytes).value)))
      && (r.status == 200 ==> r.body == [("status", JStr("success")),
                                         ("idArray", JStrArray(predict(decode(files["image"].bytes).value).ids))])
      && (r.status == 500 <==>
            "image" in files && files["image"].filename != "" && decode(files["image"].bytes).Some?
            && predict(decode(files["image"].bytes).value).Raised?)
      && ("image" in files && files["image"].filename != "" ==>
            var decoded := decode(files["image"].bytes);
            && (decoded.None? ==> r == Response(400, [("error", JStr(InvalidImage))]))
            && (decoded.Some? && !predict(decoded.value).Raised? && !Truthy(predict(decoded.value)) ==>
                  r == Response(400, [("status", JStr("Failed")), ("message", JStr(RetryAdvice))]))
            && (decoded.Some? && predict(decoded.value).Raised? ==>
                  r == Response(500, [("status", JStr("error")), ("message", JStr(ProcessFailed)),
                                      ("error", JStr(predict(decoded.value).message))])))
  {
  }

  /** As written, no upload ever gets a 200: a readable sheet gets a 500. */
  lemma AsWrittenNeverOk(files: map<string, FilePart>, decode: seq<bv8> -> Option<ExtractCells.Photo>)
    ensures ProcessUpload(files, decode, photo => PredictAsWritten(ExtractCells.ProcessImageSpec(Some(photo)))).status != 200
  {
    if "image" in files && decode(files["image"].bytes).Some? {
      AsWrittenNeverSucceeds(ExtractCells.ProcessImageSpec(Some(decode(files["image"].bytes).value)));
    }
  }

  /**
   * With the corrected predict, a decodable photo of a complete sheet gets a
   * 200 whose `idArray` is its 23 IDs, read from its cells, and every error process_image reports gets the
   * 400 retry advice.
   */
  lemma CorrectedOutcomes(files: map<string, FilePart>, decode: seq<bv8> -> Option<ExtractCells.Photo>,
                          classify: (nat, ExtractCells.Cell) -> Digit)
    requires "image" in files && files["image"].filename != "" && decode(files["image"].bytes).Some?
    ensures var pr := ExtractCells.ProcessImageSpec(Some(decode(files["image"].bytes).value));
      var r := ProcessUpload(files, decode, photo => Predicted(ExtractCells.ProcessImageSpec(Some(photo)), classify));
      && r.status != 500
      && (pr.error.Some? ==> r == Response(400, [("status", JStr("Failed")), ("message", JStr(RetryAdvice))]))
      && (pr.cells.Some? && |pr.cells.value| == CellCount ==>
            var ids := IdsOf(DigitString(Classified(pr.cells.value, classify)));
            && r == Response(200, [("status", JStr("success")), ("idArray", JStrArray(ids))])
            && |ids| == CellCount / 8
            && forall k :: 0 <= k < |ids| ==> WellFormedId(ids[k]))
  {
    var pr := ExtractCells.ProcessImageSpec(Some(decode(files["image"].bytes).value));
    RejectsEveryProcessError(Some(decode(files["image"].bytes).value));
    PredictedShape(pr, classify);
  }
}
