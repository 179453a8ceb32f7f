/** What the document store contributes to every collection of the backend:
    object ids, the `required` check of a String path, and HTTP replies. */
module Mongo {
  import opened Common

  predicate IsHexDigit(c: char) {
    '0' <= c <= '9' || 'a' <= c <= 'f' || 'A' <= c <= 'F'
  }

  /** A hexadecimal digit as an ObjectId prints it: letters in lower case. */
  predicate IsLowerHexDigit(c: char) {
    '0' <= c <= '9' || 'a' <= c <= 'f'
  }

  /** The id of a stored document, in the text form an ObjectId prints:
      24 lower-case hexadecimal digits. */
  type Oid = s: string | |s| == 24 && forall i | 0 <= i < |s| :: IsLowerHexDigit(s[i])
    witness "000000000000000000000000"

  /** A string that casts to an ObjectId: 24 hexadecimal digits, letters in
      either case. Looking a document up by any other string fails with a
      cast error. */
  predicate IsObjectIdText(s: string) {
    |s| == 24 && forall i | 0 <= i < |s| :: IsHexDigit(s[i])
  }

  /** A hexadecimal letter in lower case; every other character unchanged. */
  function HexLower(c: char): char {
    if 'A' <= c <= 'F' then (c as int + 32) as char else c
  }

  /** The ObjectId a string casts to: the digits are read without regard to
      the case of their letters. */
  function CastId(s: string): (r: Oid)
    requires IsObjectIdText(s)
    ensures forall i | 0 <= i < 24 :: r[i] == HexLower(s[i])
  {
    seq(24, i requires 0 <= i < 24 => HexLower(s[i]))
  }

  /** Two texts that differ at most in the case of hexadecimal letters. */
  predicate SameUpToHexCase(a: string, b: string) {
    |a| == |b| && forall i | 0 <= i < |a| :: HexLower(a[i]) == HexLower(b[i])
  }

  /** A stored id's own text casts to that id. */
  lemma CastStoredId(s: Oid)
    ensures IsObjectIdText(s) && CastId(s) == s
  {
    assert forall i | 0 <= i < 24 :: CastId(s)[i] == s[i];
  }

  /** Two id texts cast to the same ObjectId exactly when they differ at most
      in letter case; changing the case of a valid id keeps it valid. */
  lemma CastIdIgnoresCase(a: string, b: string)
    requires IsObjectIdText(a) && SameUpToHexCase(a, b)
    ensures IsObjectIdText(b) && CastId(a) == CastId(b)
  {
    forall i | 0 <= i < 24 ensures IsHexDigit(b[i]) {
      assert HexLower(b[i]) == HexLower(a[i]);
    }
    assert forall i | 0 <= i < 24 :: CastId(a)[i] == CastId(b)[i];
  }

  lemma CastIdSameIff(a: string, b: string)
    requires IsObjectIdText(a) && IsObjectIdText(b)
    ensures CastId(a) == CastId(b) <==> SameUpToHexCase(a, b)
  {
    if CastId(a) == CastId(b) {
      forall i | 0 <= i < 24 ensures HexLower(a[i]) == HexLower(b[i]) {
        assert CastId(a)[i] == CastId(b)[i];
      }
    } else if SameUpToHexCase(a, b) {
      CastIdIgnoresCase(a, b);
    }
  }

  /** `findById` over a collection in store order: the position of the first
      document whose id, as `idOf` reads it, is `id`. */
  function FindById<T>(docs: seq<T>, idOf: T -> Oid, id: Oid): (r: Option<nat>)
    ensures r.Some? ==> r.value < |docs| && idOf(docs[r.value]) == id
    ensures r.Some? ==> forall i | 0 <= i < r.value :: idOf(docs[i]) != id
    ensures r.None? <==> forall i | 0 <= i < |docs| :: idOf(docs[i]) != id
  {
    if docs == [] then None
    else if idOf(docs[0]) == id then Some(0)
    else match FindById(docs[1..], idOf, id)
      case None => None
      case Some(k) => Some(k + 1)
  }

  /** The `required` validator of a String path: present and non-empty. */
  predicate RequiredString(v: Option<string>) {
    Truthy(v)
  }

  /** An HTTP reply of an Express handler: a success status with a body, or an
      error status with the message of its JSON body. */
  datatype Reply<+T> = Ok(status: int, body: T) | Err(status: int, message: string)

  const ServerError := "Server Error"
}
