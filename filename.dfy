/** The download-name sanitiser shared by the CSV export, the text export and
    the clip download: `name.replace(/[^a-z0-9]/gi, '_').toLowerCase()`. */
module FileName {

  /** What `[a-z0-9]` matches under the `i` flag (without the `u` flag the
      case-insensitive match stays within ASCII). */
  predicate IsAsciiAlnum(c: char) {
    'a' <= c <= 'z' || 'A' <= c <= 'Z' || '0' <= c <= '9'
  }

  predicate IsSafeChar(c: char) {
    'a' <= c <= 'z' || '0' <= c <= '9' || c == '_'
  }

  function LowerAscii(c: char): char {
    if 'A' <= c <= 'Z' then (c as int + 32) as char else c
  }

  /** `replace(/[^a-z0-9]/gi, '_')`. */
  function ReplaceNonAlnum(s: string): string {
    seq(|s|, i requires 0 <= i < |s| => if IsAsciiAlnum(s[i]) then s[i] else '_')
  }

  /** `toLowerCase()` on a string whose characters are all ASCII; that is the
      only kind of string the sanitiser hands it. */
  function ToLowerAscii(s: string): string {
    seq(|s|, i requires 0 <= i < |s| => LowerAscii(s[i]))
  }

  /** The sanitised name keeps the length of the name; each ASCII letter or
      digit becomes its lower-case form, everything else becomes '_', so only
      `[a-z0-9_]` remains. */
  function SafeFileName(name: string): (r: string)
    ensures |r| == |name|
    ensures forall i :: 0 <= i < |r| ==> IsSafeChar(r[i])
    ensures forall i :: 0 <= i < |r| ==> (IsAsciiAlnum(name[i]) <==> r[i] != '_')
    ensures forall i :: 0 <= i < |r| && IsAsciiAlnum(name[i]) ==> r[i] == LowerAscii(name[i])
  {
    ToLowerAscii(ReplaceNonAlnum(name))
  }

  /** Sanitising a sanitised name changes nothing. */
  lemma SafeFileNameIdempotent(name: string)
    ensures SafeFileName(SafeFileName(name)) == SafeFileName(name)
  {
    var once := SafeFileName(name);
    var twice := SafeFileName(once);
    forall i | 0 <= i < |once| ensures twice[i] == once[i] {
      if once[i] != '_' {
        assert IsAsciiAlnum(once[i]);
      }
    }
  }
}
