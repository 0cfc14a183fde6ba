/**
 * `POST /api/upload` (app/api/upload/route.ts): takes the `file` entry of a
 * multipart form, accepts only four image types, and writes it into the
 * uploads directory under a fresh uuid followed by the original extension.
 */
module Upload {
  import opened Storage

  datatype File = File(name: string, mimeType: string, bytes: seq<bv8>)

  /** `formData.get('file')`: nothing, a plain text entry, or a file. */
  datatype FormEntry = NoEntry | TextEntry(text: string) | FileEntry(file: File)

  /** The request as `request.formData()` sees it. */
  datatype Request = NotMultipart | Form(entry: FormEntry)

  datatype Reply = Uploaded(url: string) | Error(error: string)

  datatype Response = Response(status: int, reply: Reply)

  /**
   * Which file-system call throws, if any. `WriteFails` is a `writeFile`
   * that throws before the file is opened; `WriteCutShort(n)` one that
   * throws after opening (creating or truncating) the file and writing at
   * most its first `n` bytes.
   */
  datatype Fault = NoFault | MkdirFails | WriteFails | WriteCutShort(n: nat)

  /** The bytes a write cut short after `n` bytes leaves in the file. */
  function Written(bytes: seq<bv8>, n: nat): (r: seq<bv8>)
    ensures |r| <= |bytes| && r == bytes[..|r|]
    ensures |r| == |bytes| || |r| == n
  {
    if n < |bytes| then bytes[..n] else bytes
  }

  const ValidTypes := ["image/jpeg", "image/png", "image/gif", "image/webp"]

  const NoFile := "Nenhum arquivo foi enviado"
  const Unsupported := "Tipo de arquivo não suportado. Apenas imagens são permitidas."
  const UploadError := "Erro ao processar upload"

  /** `!file`: no entry, or an empty text entry. */
  predicate Missing(e: FormEntry) {
    e.NoEntry? || e == TextEntry("")
  }

  /** `validTypes.includes(file.type)`; a text entry has no `type`. */
  predicate Accepted(e: FormEntry) {
    e.FileEntry? && e.file.mimeType in ValidTypes
  }

  /**
   * The name the file is stored under: the uuid, then the extension of the
   * name it was sent with. Whatever the client's name holds, the part after
   * the uuid has no `/`, so a slash-free uuid keeps the file directly in the
   * uploads directory.
   */
  function StoredName(uuid: string, fileName: string): (r: string)
    ensures |uuid| <= |r| && r[..|uuid|] == uuid
    ensures SlashFree(r[|uuid|..]) && (r[|uuid|..] == "" || r[|uuid|] == '.')
    ensures SlashFree(uuid) ==> SlashFree(r)
  {
    uuid + ExtName(fileName)
  }

  /** The public url of a stored file. */
  function UrlOf(name: string): string {
    "/uploads/" + name
  }

  /** The handler `POST`; `uuid` is the value `uuidv4()` returns and `fault` the file-system call that throws. */
  method Post(dir: UploadsDir, req: Request, uuid: string, fault: Fault) returns (resp: Response)
    requires dir.Valid()
    modifies dir
    ensures dir.Valid()
    ensures req.NotMultipart? ==>
      resp == Response(500, Error(UploadError)) && dir.files == old(dir.files) && dir.present == old(dir.present)
    ensures req.Form? && Missing(req.entry) ==>
      resp == Response(400, Error(NoFile)) && dir.files == old(dir.files) && dir.present == old(dir.present)
    ensures req.Form? && !Missing(req.entry) && !Accepted(req.entry) ==>
      resp == Response(400, Error(Unsupported)) && dir.files == old(dir.files) && dir.present == old(dir.present)
    ensures req.Form? && Accepted(req.entry) ==>
      var name := StoredName(uuid, req.entry.file.name);
      && (fault == MkdirFails ==>
            resp == Response(500, Error(UploadError)) && dir.files == old(dir.files) && dir.present == old(dir.present))
      && (fault == WriteFails ==> resp == Response(500, Error(UploadError)) && dir.present && dir.files == old(dir.files))
      && (fault.WriteCutShort? ==>
            resp == Response(500, Error(UploadError)) && dir.present
            && dir.files == old(dir.files)[name := Written(req.entry.file.bytes, fault.n)])
      && (fault == NoFault ==>
            dir.present &&
            resp == Response(200, Uploaded(UrlOf(name)))
            && dir.files == old(dir.files)[name := req.entry.file.bytes])
  {
    if req.NotMultipart? {
      return Response(500, Error(UploadError));
    }
    var entry := req.entry;
    if Missing(entry) {
      return Response(400, Error(NoFile));
    }
    if !Accepted(entry) {
      return Response(400, Error(Unsupported));
    }
    if fault == MkdirFails {
      return Response(500, Error(UploadError));
    }
    dir.Mkdir();
    var name := StoredName(uuid, entry.file.name);
    if fault == WriteFails {
      return Response(500, Error(UploadError));
    }
    if fault.WriteCutShort? {
      dir.WriteFile(name, Written(entry.file.bytes, fault.n));
      return Response(500, Error(UploadError));
    }
    dir.WriteFile(name, entry.file.bytes);
    resp := Response(200, Uploaded(UrlOf(name)));
  }

  /** A uuid-named file keeps the extension it was uploaded with, and its url names it. */
  lemma StoredNameKeepsExtension(uuid: string, fileName: string)
    requires uuid != "" && DotFree(uuid) && SlashFree(uuid)
    ensures ExtName(StoredName(uuid, fileName)) == ExtName(fileName)
    ensures UrlOf(StoredName(uuid, fileName))[|"/uploads/"|..] == StoredName(uuid, fileName)
  {
    ExtNameAfterPrefix(uuid, fileName);
  }
}
