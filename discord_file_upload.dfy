/** The multipart/form-data body the Discord upload posts (discord_file_upload_service.py), in
    the layout of RFC 7578 with the delimiter lines of section 5.1.1 of RFC 2046: every part
    opens with `--` and the boundary, carries a Content-Disposition header, a blank line and its
    content, and the body closes with `--`, the boundary and `--`. */
module DiscordFileUpload {
  import opened Wrappers
  import opened PyStrings
  import opened Seqs
  import opened Utf8

  /** What `perform` is given to upload. `Structured` stands for any other Python value, with
      its `json.dumps` rendering and its `str` rendering. */
  datatype Payload =
    | Bytes(data: seq<byte>)
    | Text(text: string)
    | Structured(json: string, str: string)

  /** A file part: the file name, its bytes and its content type. */
  datatype FileField = FileField(filename: string, content: seq<byte>, contentType: string)

  /** What `perform` returns. */
  datatype Report = Report(ok: bool, filename: string, bytes: nat)

  /** `_materialize_bytes`: bytes as they are, text as UTF-8, anything else rendered as JSON when
      the content type is JSON and with `str` otherwise. */
  function MaterializeBytes(data: Payload, contentType: string): seq<byte>
  {
    match data
    case Bytes(b) => b
    case Text(s) => Encode(s)
    case Structured(json, str) =>
      if StartsWith(Lower(contentType), "application/json") then Encode(json) else Encode(str)
  }

  /** The boundary from the hex text of a fresh uuid. */
  function Boundary(token: string): string
  {
    "----WebKitFormBoundary" + token
  }

  function Delimiter(boundary: string): string
  {
    "--" + boundary + "\r\n"
  }

  function CloseDelimiter(boundary: string): string
  {
    "--" + boundary + "--\r\n"
  }

  function TextHeader(name: string): string
  {
    "Content-Disposition: form-data; name=\"" + name + "\"\r\n\r\n"
  }

  function FileHeader(name: string, f: FileField): string
  {
    "Content-Disposition: form-data; name=\"" + name + "\"; filename=\"" + f.filename + "\"\r\n"
      + "Content-Type: " + f.contentType + "\r\n\r\n"
  }

  /** `value or ""` */
  function ValueText(value: Option<string>): string
  {
    if value.Some? then value.value else ""
  }

  /** The text of a text field: delimiter, header, value, line end. */
  function TextPartString(boundary: string, name: string, value: Option<string>): string
  {
    Delimiter(boundary) + TextHeader(name) + ValueText(value) + "\r\n"
  }

  function TextPart(boundary: string, name: string, value: Option<string>): seq<byte>
  {
    Encode(TextPartString(boundary, name, value))
  }

  /** A file field: delimiter and headers as text, the file's bytes, a line end. */
  function FilePart(boundary: string, name: string, f: FileField): seq<byte>
  {
    Encode(Delimiter(boundary) + FileHeader(name, f)) + f.content + Encode("\r\n")
  }

  function TextParts(boundary: string, fields: seq<(string, Option<string>)>): seq<byte>
  {
    if fields == [] then []
    else
      var last := fields[|fields| - 1];
      TextParts(boundary, fields[..|fields| - 1]) + TextPart(boundary, last.0, last.1)
  }

  function FileParts(boundary: string, files: seq<(string, FileField)>): seq<byte>
  {
    if files == [] then []
    else
      var last := files[|files| - 1];
      FileParts(boundary, files[..|files| - 1]) + FilePart(boundary, last.0, last.1)
  }

  /** The body: every text field in order, then every file in order, then the closing
      delimiter. */
  function Body(boundary: string, fields: seq<(string, Option<string>)>, files: seq<(string, FileField)>): seq<byte>
  {
    TextParts(boundary, fields) + FileParts(boundary, files) + Encode(CloseDelimiter(boundary))
  }

  function ContentType(boundary: string): string
  {
    "multipart/form-data; boundary=" + boundary
  }

  /** The chunks `add_text_field` appends. */
  function TextChunks(boundary: string, name: string, value: Option<string>): seq<seq<byte>>
  {
    [Encode(Delimiter(boundary)), Encode(TextHeader(name)), Encode(ValueText(value)), Encode("\r\n")]
  }

  /** The chunks `add_file_field` appends. */
  function FileChunks(boundary: string, name: string, f: FileField): seq<seq<byte>>
  {
    [Encode(Delimiter(boundary)), Encode(FileHeader(name, f)), f.content, Encode("\r\n")]
  }

  /** The four chunks of a text field join to its text, encoded. */
  lemma TextChunksJoin(boundary: string, name: string, value: Option<string>)
    ensures Flatten(TextChunks(boundary, name, value)) == TextPart(boundary, name, value)
  {
    var a, b, c, d := Delimiter(boundary), TextHeader(name), ValueText(value), "\r\n";
    EncodeAppend(a + b + c, d);
    EncodeAppend(a + b, c);
    EncodeAppend(a, b);
    FlattenFour(Encode(a), Encode(b), Encode(c), Encode(d));
  }

  /** The four chunks of a file field join to the file part. */
  lemma FileChunksJoin(boundary: string, name: string, f: FileField)
    ensures Flatten(FileChunks(boundary, name, f)) == FilePart(boundary, name, f)
  {
    EncodeAppend(Delimiter(boundary), FileHeader(name, f));
    FlattenFour(Encode(Delimiter(boundary)), Encode(FileHeader(name, f)), f.content, Encode("\r\n"));
  }

  lemma FlattenFour<T>(a: seq<T>, b: seq<T>, c: seq<T>, d: seq<T>)
    ensures Flatten([a, b, c, d]) == a + b + c + d
  {
    assert [d][1..] == [];
    assert Flatten([d]) == d;
    assert [c, d][1..] == [d];
    assert Flatten([c, d]) == c + d;
    assert [b, c, d][1..] == [c, d];
    assert Flatten([b, c, d]) == b + (c + d);
    assert [a, b, c, d][1..] == [b, c, d];
  }

  lemma TextStep(boundary: string, fields: seq<(string, Option<string>)>, i: nat, lines: seq<seq<byte>>)
    requires i < |fields| && Flatten(lines) == TextParts(boundary, fields[..i])
    ensures Flatten(lines + TextChunks(boundary, fields[i].0, fields[i].1)) == TextParts(boundary, fields[..i + 1])
  {
    TextChunksJoin(boundary, fields[i].0, fields[i].1);
    FlattenAppend(lines, TextChunks(boundary, fields[i].0, fields[i].1));
    assert fields[..i + 1][..i] == fields[..i];
  }

  lemma FileStep(boundary: string, prefix: seq<byte>, files: seq<(string, FileField)>, i: nat, lines: seq<seq<byte>>)
    requires i < |files| && Flatten(lines) == prefix + FileParts(boundary, files[..i])
    ensures Flatten(lines + FileChunks(boundary, files[i].0, files[i].1)) == prefix + FileParts(boundary, files[..i + 1])
  {
    FileChunksJoin(boundary, files[i].0, files[i].1);
    FlattenAppend(lines, FileChunks(boundary, files[i].0, files[i].1));
    assert files[..i + 1][..i] == files[..i];
  }

  lemma CloseStep(boundary: string, lines: seq<seq<byte>>)
    ensures Flatten(lines + [Encode(CloseDelimiter(boundary))]) == Flatten(lines) + Encode(CloseDelimiter(boundary))
  {
    FlattenAppend(lines, [Encode(CloseDelimiter(boundary))]);
    assert [Encode(CloseDelimiter(boundary))][1..] == [];
  }

  /** `_build_multipart`: collects the chunks of every part in a list and joins them. */
  method BuildMultipart(fields: seq<(string, Option<string>)>, files: seq<(string, FileField)>, token: string)
    returns (body: seq<byte>, contentType: string)
    ensures body == Body(Boundary(token), fields, files)
    ensures contentType == ContentType(Boundary(token))
  {
    var boundary := Boundary(token);
    var lines: seq<seq<byte>> := [];
    for i := 0 to |fields|
      invariant Flatten(lines) == TextParts(boundary, fields[..i])
    {
      TextStep(boundary, fields, i, lines);
      lines := lines + TextChunks(boundary, fields[i].0, fields[i].1);
    }
    assert fields[..|fields|] == fields;
    ghost var text := Flatten(lines);
    assert files[..0] == [];
    for i := 0 to |files|
      invariant Flatten(lines) == text + FileParts(boundary, files[..i])
    {
      FileStep(boundary, text, files, i, lines);
      lines := lines + FileChunks(boundary, files[i].0, files[i].1);
    }
    assert files[..|files|] == files;
    CloseStep(boundary, lines);
    lines := lines + [Encode(CloseDelimiter(boundary))];
    body := Flatten(lines);
    contentType := ContentType(boundary);
  }

  /** `perform` without the post: the message as the `content` field, the payload as the `file`
      field, and the size of the body posted. */
  method Perform(data: Payload, filename: string, message: Option<string>, contentType: string, token: string)
    returns (report: Report, body: seq<byte>, bodyType: string)
    ensures body == Body(Boundary(token), [("content", Some(ValueText(message)))],
                         [("file", FileField(filename, MaterializeBytes(data, contentType), contentType))])
    ensures bodyType == ContentType(Boundary(token))
    ensures report == Report(true, filename, |body|)
  {
    var payload := MaterializeBytes(data, contentType);
    body, bodyType := BuildMultipart([("content", Some(ValueText(message)))],
                                     [("file", FileField(filename, payload, contentType))], token);
    report := Report(true, filename, |body|);
  }

  /** With no field and no file the body is the closing delimiter alone. */
  lemma EmptyBody(token: string)
    ensures Body(Boundary(token), [], []) == Encode("------WebKitFormBoundary" + token + "--\r\n")
  {
    assert CloseDelimiter(Boundary(token)) == "------WebKitFormBoundary" + token + "--\r\n";
  }

  /** A body with text fields only is the UTF-8 encoding of its text, and reads back as that text. */
  lemma {:induction false} TextPartsText(boundary: string, fields: seq<(string, Option<string>)>)
    ensures TextParts(boundary, fields) == Encode(TextPartsString(boundary, fields))
    ensures Decode(TextParts(boundary, fields)) == Some(TextPartsString(boundary, fields))
  {
    if fields != [] {
      var init := fields[..|fields| - 1];
      var last := fields[|fields| - 1];
      TextPartsText(boundary, init);
      EncodeAppend(TextPartsString(boundary, init), TextPartString(boundary, last.0, last.1));
    }
    DecodeEncode(TextPartsString(boundary, fields));
  }

  /** The text of the text parts. */
  function TextPartsString(boundary: string, fields: seq<(string, Option<string>)>): string
  {
    if fields == [] then ""
    else
      var last := fields[|fields| - 1];
      TextPartsString(boundary, fields[..|fields| - 1]) + TextPartString(boundary, last.0, last.1)
  }

  /** Every text part starts with the delimiter line; for the body that means the first bytes are
      the delimiter as soon as there is a field, and the last bytes are always the closing
      delimiter. */
  lemma BodyFrame(boundary: string, fields: seq<(string, Option<string>)>, files: seq<(string, FileField)>)
    ensures var b, close := Body(boundary, fields, files), Encode(CloseDelimiter(boundary));
      |close| <= |b| && b[|b| - |close|..] == close
    ensures fields != [] ==> Encode(Delimiter(boundary)) <= Body(boundary, fields, files)
  {
    var close := Encode(CloseDelimiter(boundary));
    var b := Body(boundary, fields, files);
    assert b[|b| - |close|..] == close;
    if fields != [] {
      TextPartsStart(boundary, fields);
    }
  }

  lemma {:induction false} TextPartsStart(boundary: string, fields: seq<(string, Option<string>)>)
    requires fields != []
    ensures Encode(Delimiter(boundary)) <= TextParts(boundary, fields)
  {
    var d := Encode(Delimiter(boundary));
    var init := fields[..|fields| - 1];
    var last := fields[|fields| - 1];
    if init == [] {
      EncodeAppend(Delimiter(boundary), TextHeader(last.0) + ValueText(last.1) + "\r\n");
      assert Delimiter(boundary) + TextHeader(last.0) + ValueText(last.1) + "\r\n"
          == Delimiter(boundary) + (TextHeader(last.0) + ValueText(last.1) + "\r\n");
      assert TextParts(boundary, fields) == [] + TextPart(boundary, last.0, last.1);
    } else {
      TextPartsStart(boundary, init);
    }
  }
}
