/**
 * The upload route: it validates the description of a file the browser is
 * about to upload, builds a unique object key under `videos/`, and returns a
 * presigned PUT URL for that key, valid for 1800 seconds. The UUID, the bucket
 * setting and the signer are parameters; signing itself is not modelled.
 */
module UploadVideoRoute {
  import opened Common
  import opened Utf16

  /** The JSON body, field by field; `size` is a JavaScript number. */
  datatype UploadBody = UploadBody(
    fileName: Field<string>,
    contentType: Field<string>,
    size: Field<real>,
    isImage: Field<bool>)

  /** `fileUploadSchema.safeParse(body).success`. */
  predicate ValidBody(body: UploadBody)
  {
    && body.fileName.Given? && Length(body.fileName.value) >= 1
    && body.contentType.Given? && Length(body.contentType.value) >= 1
    && body.size.Given? && body.size.value >= 1.0
    && body.isImage.Given?
  }

  /** `fileName.replace(/\s/g, '_')`. */
  function Sanitize(name: string): (r: string)
    ensures |r| == |name|
    ensures forall i :: 0 <= i < |name| ==> r[i] == (if IsWhitespace(name[i]) then '_' else name[i])
  {
    seq(|name|, i requires 0 <= i < |name| => if IsWhitespace(name[i]) then '_' else name[i])
  }

  /** The object key: prefix, UUID, a dash, and the sanitised file name. */
  function UniqueKey(uuid: string, fileName: string): string
  {
    "videos/" + uuid + "-" + Sanitize(fileName)
  }

  /** What the signer is asked to sign. */
  datatype PutRequest = PutRequest(bucket: string, contentType: string, contentLength: real, key: string, expiresIn: int)

  /** The reply body of a success. */
  datatype Presigned = Presigned(presignedUrl: string, key: string)

  const EXPIRES_IN := 1800

  /**
   * POST. `uuid` is the value `uuidv4()` returns, `bucket` the configured
   * bucket name, and `sign` the presigner.
   */
  function Post(body: UploadBody, uuid: string, bucket: Option<string>, sign: PutRequest -> string): (r: Response<Presigned>)
    ensures r.status == BAD_REQUEST <==> !ValidBody(body)
    ensures r.status == SERVER_ERROR <==> ValidBody(body) && !Truthy(bucket)
    ensures r.status == SERVER_ERROR ==> r.message == "Server configuration error: Missing S3 bucket name"
    ensures r.status == OK <==> ValidBody(body) && Truthy(bucket)
    ensures r.status == OK ==>
      var key := UniqueKey(uuid, body.fileName.value);
      r.data == Some(Presigned(sign(PutRequest(bucket.value, body.contentType.value, body.size.value, key, EXPIRES_IN)), key))
  {
    if !ValidBody(body) then Response(BAD_REQUEST, "Invalid request body", None)
    else
      var key := UniqueKey(uuid, body.fileName.value);
      if !Truthy(bucket) then Response(SERVER_ERROR, "Server configuration error: Missing S3 bucket name", None)
      else
        var url := sign(PutRequest(bucket.value, body.contentType.value, body.size.value, key, EXPIRES_IN));
        Response(OK, "", Some(Presigned(url, key)))
  }

  /** The sanitised name has no whitespace, and a name without whitespace is kept as it is. */
  lemma SanitizeRemovesOnlyWhitespace(name: string)
    ensures forall i :: 0 <= i < |Sanitize(name)| ==> !IsWhitespace(Sanitize(name)[i])
    ensures (forall i :: 0 <= i < |name| ==> !IsWhitespace(name[i])) ==> Sanitize(name) == name
    ensures Sanitize(Sanitize(name)) == Sanitize(name)
  {
    assert !IsWhitespace('_');
  }

  /**
   * The key is the prefix, the UUID and the name with whitespace replaced;
   * path separators and dots are kept, so `a/../b c` ends the key as `a/../b_c`.
   */
  lemma KeyKeepsPathCharacters(uuid: string)
    ensures UniqueKey(uuid, "a/../b c") == "videos/" + uuid + "-a/../b_c"
  {
    assert Sanitize("a/../b c") == "a/../b_c";
  }

  /** The key always starts with the prefix and the UUID, and ends with a sanitised name of the same length. */
  lemma KeyShape(uuid: string, fileName: string)
    ensures var key := UniqueKey(uuid, fileName);
      var head := "videos/" + uuid + "-";
      && |key| == |head| + |fileName|
      && key[..|head|] == head
      && key[|head|..] == Sanitize(fileName)
  {
  }
}
