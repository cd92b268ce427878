/** The bounds and the class-ID normalisation of `src/admission-policy.ts`. */
module AdmissionPolicy {
  import opened Wrappers
  import opened Text

  const MAX_ADMISSION_CLASSES := 64
  const MAX_ADMISSION_IDENTIFIER_LENGTH := 256

  /** The normalised ID, or `None` where the source throws. */
  function NormalizeClassId(raw: string): (r: Option<string>)
    ensures r.Some? ==> r.value == Trim(raw) && 0 < |r.value| <= MAX_ADMISSION_IDENTIFIER_LENGTH
  {
    var id := Trim(raw);
    if id == "" || |id| > MAX_ADMISSION_IDENTIFIER_LENGTH || id in {"__proto__", "constructor", "prototype"} then
      None
    else
      Some(id)
  }

  /** A normalised ID is left alone by a second normalisation. */
  lemma NormalizeIdempotent(raw: string)
    requires NormalizeClassId(raw).Some?
    ensures NormalizeClassId(NormalizeClassId(raw).value) == NormalizeClassId(raw)
  {
    TrimIdempotent(raw);
  }

  /** An identifier is let through exactly when, once trimmed, it has 1 to 256 characters and is not reserved. */
  lemma NormalizedExactly(raw: string, id: string)
    ensures NormalizeClassId(raw) == Some(id) <==>
              && id == Trim(raw) && 1 <= |id| <= 256
              && id != "__proto__" && id != "constructor" && id != "prototype"
  {
  }
}
