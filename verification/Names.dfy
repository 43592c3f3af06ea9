// Tunnel names: which are valid and how they are ordered in a list.
module Names {
  import opened Text

  const RESERVED: seq<string> := [
    "CON", "PRN", "AUX", "NUL",
    "COM1", "COM2", "COM3", "COM4", "COM5", "COM6", "COM7", "COM8", "COM9",
    "LPT1", "LPT2", "LPT3", "LPT4", "LPT5", "LPT6", "LPT7", "LPT8", "LPT9"]

  predicate IsReserved(name: string) {
    name != "" && exists r :: r in RESERVED && EqualFold(name, r)
  }

  // Characters that Windows, netsh or the service manager forbid.
  predicate SpecialChar(c: char) {
    c as int < 32 || c in "/\\<>:\"|?*$"
  }

  predicate HasSpecialChars(name: string) {
    exists i :: 0 <= i < |name| && SpecialChar(name[i])
  }

  predicate NameChar(c: char) {
    'a' <= c <= 'z' || 'A' <= c <= 'Z' || '0' <= c <= '9' || c in "_=+.-"
  }

  predicate AllowedFormat(name: string) {
    1 <= |name| <= 32 && forall i :: 0 <= i < |name| ==> NameChar(name[i])
  }

  // TunnelNameIsValid
  predicate ValidName(name: string) {
    !IsReserved(name) && !HasSpecialChars(name) && AllowedFormat(name)
  }

  // The valid names are those of one to 32 letters, digits and _=+.- that are
  // not reserved: the check for special characters refuses nothing more.
  lemma {:induction false} ValidExactly(name: string)
    ensures ValidName(name) <==>
      && 1 <= |name| <= 32
      && (forall i :: 0 <= i < |name| ==> 'a' <= name[i] <= 'z' || 'A' <= name[i] <= 'Z' || '0' <= name[i] <= '9' || name[i] in "_=+.-")
      && forall r :: r in RESERVED ==> Lower(r) != Lower(name)
  {
    forall i | 0 <= i < |name| && NameChar(name[i])
      ensures !SpecialChar(name[i])
    {
      NameCharIsPlain(name[i]);
    }
  }

  lemma {:induction false} NameCharIsPlain(c: char)
    requires NameChar(c)
    ensures !SpecialChar(c)
  {
  }
}
