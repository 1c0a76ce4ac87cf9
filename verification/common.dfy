/** Shared vocabulary of the front end: optional values and the two kinds of applicant. */
module Common {

  /** A value that may be absent: JavaScript `undefined` / `null`. */
  datatype Option<+T> = None | Some(value: T) {

    /** The value, or `default` when absent (the `x || default` idiom on non-empty values). */
    function GetOr(default: T): T {
      match this
      case Some(v) => v
      case None => default
    }
  }

  /** Applicant kind chosen on the first enrollment step: a natural person ("fisica")
      or a company ("moral"). */
  datatype UserKind = Fisica | Moral

  /** The string the front end sends for each applicant kind. */
  function UserKindName(k: UserKind): (r: string)
    ensures r == "fisica" || r == "moral"
    ensures r == "fisica" <==> k == Fisica
  {
    match k
    case Fisica => "fisica"
    case Moral => "moral"
  }

  /** JavaScript truthiness of an optional string: present and non-empty. */
  predicate Truthy(s: Option<string>) {
    s.Some? && s.value != ""
  }

  /** `s || ''`: the string when it is present and non-empty, otherwise "". */
  function OrEmpty(s: Option<string>): (r: string)
    ensures Truthy(s) ==> r == s.value
    ensures !Truthy(s) ==> r == ""
  {
    if Truthy(s) then s.value else ""
  }
}
