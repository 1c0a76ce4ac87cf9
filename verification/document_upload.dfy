/** The document step of the enrollment wizard
    (src/components/enrollment/DocumentUploadForm.tsx): four slots, each holding at most one
    file, a size and type gate on every selected file, and a submit that goes through only when
    all four slots are filled. */
module DocumentUpload {
  import opened Common

  datatype Slot = Ine | ConstanciaFiscal | ComprobanteDomicilio | CaratulaBancaria

  const AllSlots: set<Slot> := {Ine, ConstanciaFiscal, ComprobanteDomicilio, CaratulaBancaria}

  /** The parts of a browser `File` the form looks at. */
  datatype File = File(name: string, size: nat, mimeType: string)

  /** The four slots; `None` is `null`. */
  datatype Documents = Documents(ine: Option<File>, constanciaFiscal: Option<File>,
                                 comprobanteDomicilio: Option<File>, caratulaBancaria: Option<File>)
  {
    function Get(s: Slot): Option<File> {
      match s
      case Ine => ine
      case ConstanciaFiscal => constanciaFiscal
      case ComprobanteDomicilio => comprobanteDomicilio
      case CaratulaBancaria => caratulaBancaria
    }

    /** `{ ...documents, [key]: file }`. */
    function Set(s: Slot, f: Option<File>): (r: Documents)
      ensures r.Get(s) == f
      ensures forall t :: t != s ==> r.Get(t) == Get(t)
    {
      match s
      case Ine => this.(ine := f)
      case ConstanciaFiscal => this.(constanciaFiscal := f)
      case ComprobanteDomicilio => this.(comprobanteDomicilio := f)
      case CaratulaBancaria => this.(caratulaBancaria := f)
    }
  }

  const NoDocuments := Documents(None, None, None, None)

  /** The form's state: the slots and the message under each slot (missing reads as none). */
  datatype Upload = Upload(documents: Documents, errors: map<Slot, string>)

  function ErrorOf(u: Upload, s: Slot): string {
    if s in u.errors then u.errors[s] else ""
  }

  /** 5 MB. */
  const MaxFileSize: nat := 5 * 1024 * 1024

  const AllowedTypes: seq<string> := ["application/pdf", "image/jpeg", "image/jpg", "image/png"]

  const TooLarge := "El archivo no debe superar 5MB"
  const WrongType := "Solo se permiten archivos PDF, JPG o PNG"
  const Required := "Este documento es requerido"

  /** A file the gate lets into a slot. */
  predicate Admissible(f: File) {
    f.size <= MaxFileSize && f.mimeType in AllowedTypes
  }

  /** `handleFileSelect`: an oversized file, then a file of another type, is refused with its
      message and the slots stay as they were; an admissible file fills the slot and clears
      its message; no file empties the slot and leaves its message. */
  function SelectFile(u: Upload, s: Slot, file: Option<File>): (r: Upload)
    ensures file.Some? && file.value.size > MaxFileSize ==>
      r.documents == u.documents && r.errors == u.errors[s := TooLarge]
    ensures file.Some? && file.value.size <= MaxFileSize && file.value.mimeType !in AllowedTypes ==>
      r.documents == u.documents && r.errors == u.errors[s := WrongType]
    ensures file.Some? && Admissible(file.value) ==>
      r.documents.Get(s) == file && s in r.errors && ErrorOf(r, s) == ""
    ensures file.None? ==> r.documents.Get(s) == None && r.errors == u.errors
    ensures forall t :: t != s ==> r.documents.Get(t) == u.documents.Get(t) && ErrorOf(r, t) == ErrorOf(u, t)
  {
    match file
    case Some(f) =>
      if f.size > MaxFileSize then Upload(u.documents, u.errors[s := TooLarge])
      else if f.mimeType !in AllowedTypes then Upload(u.documents, u.errors[s := WrongType])
      else Upload(u.documents.Set(s, file), u.errors[s := ""])
    case None => Upload(u.documents.Set(s, None), u.errors)
  }

  /** A selected file lands in its slot exactly when it is admissible. */
  lemma SelectStoresIff(u: Upload, s: Slot, f: File)
    requires u.documents.Get(s) != Some(f)
    ensures SelectFile(u, s, Some(f)).documents.Get(s) == Some(f) <==> Admissible(f)
  {
  }

  /** An oversized file gets the size message even when its type is wrong too. */
  lemma SizeCheckedFirst(u: Upload, s: Slot, f: File)
    requires f.size > MaxFileSize
    ensures ErrorOf(SelectFile(u, s, Some(f)), s) == TooLarge
  {
  }

  /** `handleRemoveFile`: empties the slot and clears its message only. */
  function RemoveFile(u: Upload, s: Slot): (r: Upload)
    ensures r.documents.Get(s) == None && s in r.errors && ErrorOf(r, s) == ""
    ensures forall t :: t != s ==> r.documents.Get(t) == u.documents.Get(t) && ErrorOf(r, t) == ErrorOf(u, t)
  {
    Upload(u.documents.Set(s, None), u.errors[s := ""])
  }

  datatype SubmitOutcome = SubmitOutcome(state: Upload, submitted: Option<Documents>)

  lemma AllSlotsComplete()
    ensures forall s :: s in AllSlots
  {
    forall s ensures s in AllSlots {
      match s
      case Ine =>
      case ConstanciaFiscal =>
      case ComprobanteDomicilio =>
      case CaratulaBancaria =>
    }
  }

  /** `handleSubmit`: the messages become "required" on exactly the empty slots and nothing
      else, and the documents go on iff no slot is empty. */
  function Submit(u: Upload): (r: SubmitOutcome)
    ensures r.state.documents == u.documents
    ensures forall s :: s in r.state.errors <==> u.documents.Get(s).None?
    ensures forall s :: s in r.state.errors ==> r.state.errors[s] == Required
    ensures r.submitted.Some? <==> forall s :: u.documents.Get(s).Some?
    ensures r.submitted.Some? ==> r.submitted.value == u.documents
  {
    AllSlotsComplete();
    var errors := map s | s in AllSlots && u.documents.Get(s).None? :: Required;
    var submitted := if |errors.Keys| == 0 then Some(u.documents) else None;
    SubmitOutcome(Upload(u.documents, errors), submitted)
  }

  /** Choosing an admissible file for every slot, in any state, makes the submit go through
      with exactly those files. */
  lemma FillAllThenSubmit(u: Upload, a: File, b: File, c: File, d: File)
    requires Admissible(a) && Admissible(b) && Admissible(c) && Admissible(d)
    ensures var u4 := SelectFile(SelectFile(SelectFile(SelectFile(u, Ine, Some(a)),
                        ConstanciaFiscal, Some(b)), ComprobanteDomicilio, Some(c)), CaratulaBancaria, Some(d));
      Submit(u4).submitted == Some(Documents(Some(a), Some(b), Some(c), Some(d)))
  {
    var u1 := SelectFile(u, Ine, Some(a));
    var u2 := SelectFile(u1, ConstanciaFiscal, Some(b));
    var u3 := SelectFile(u2, ComprobanteDomicilio, Some(c));
    var u4 := SelectFile(u3, CaratulaBancaria, Some(d));
    assert u4.documents == Documents(Some(a), Some(b), Some(c), Some(d));
  }

  /** Removing any file blocks the next submit and marks that slot required. */
  lemma RemoveBlocksSubmit(u: Upload, s: Slot)
    ensures Submit(RemoveFile(u, s)).submitted.None?
    ensures ErrorOf(Submit(RemoveFile(u, s)).state, s) == Required
  {
  }
}
