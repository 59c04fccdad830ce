/** JSON values in the sense of RFC 8259 sections 3 to 6, as Go's decoder sees them. */
module Json {
  import Base

  /**
   * A number remembers whether it was written as an integer literal: Go decodes "4" but
   * not "4.0" into an int field. Object member names are unique.
   */
  datatype Json =
    | Null
    | Bool(b: bool)
    | Num(value: real, intLiteral: bool)
    | Str(text: string)
    | Arr(items: seq<Json>)
    | Obj(fields: map<string, Json>)

  function Field(fields: map<string, Json>, name: string): Base.Option<Json> {
    if name in fields then Base.Some(fields[name]) else Base.None
  }

  predicate IsIntegral(r: real) { r.Floor as real == r }

  /** Go writes a float64 below 1e21 in magnitude without exponent, so an integral one as an integer. */
  predicate EncodesAsInteger(r: real) {
    IsIntegral(r) && -1000000000000000000000.0 < r < 1000000000000000000000.0
  }

  /** What a value decoded into `any` becomes after it is marshalled and read again. */
  function Reencode(v: Json): Json {
    match v
    case Null => Null
    case Bool(b) => Bool(b)
    case Num(r, _) => Num(r, EncodesAsInteger(r))
    case Str(s) => Str(s)
    case Arr(items) => Arr(seq(|items|, i requires 0 <= i < |items| => Reencode(items[i])))
    case Obj(fields) => Obj(map k | k in fields :: Reencode(fields[k]))
  }

  lemma {:induction false} ReencodeIdempotent(v: Json)
    ensures Reencode(Reencode(v)) == Reencode(v)
  {
    match v
    case Arr(items) =>
      forall i | 0 <= i < |items| ensures Reencode(Reencode(items[i])) == Reencode(items[i]) {
        ReencodeIdempotent(items[i]);
      }
    case Obj(fields) =>
      forall k | k in fields ensures Reencode(Reencode(fields[k])) == Reencode(fields[k]) {
        ReencodeIdempotent(fields[k]);
      }
    case _ =>
  }

  /** An integral number below 1e21 in magnitude is written as an integer literal, and no other is. */
  lemma ReencodedNumber(r: real, literal: bool)
    ensures Reencode(Num(r, literal)) == Num(r,
        -1000000000000000000000.0 < r < 1000000000000000000000.0 && exists i: int :: AsReal(i) == r)
  {
    if IsIntegral(r) {
      assert AsReal(r.Floor) == r;
    }
  }

  function AsReal(i: int): real { i as real }

  /** v and w differ at most in whether numbers are written as integers. */
  ghost predicate SameValue(v: Json, w: Json) {
    match v
    case Num(r, _) => w.Num? && w.value == r
    case Arr(items) =>
      w.Arr? && |w.items| == |items| && forall i :: 0 <= i < |items| ==> SameValue(items[i], w.items[i])
    case Obj(fields) =>
      w.Obj? && w.fields.Keys == fields.Keys && forall k :: k in fields ==> SameValue(fields[k], w.fields[k])
    case _ => v == w
  }

  lemma {:induction false} ReencodeKeepsValue(v: Json)
    ensures SameValue(v, Reencode(v))
  {
    match v
    case Arr(items) =>
      forall i | 0 <= i < |items| ensures SameValue(items[i], Reencode(items[i])) {
        ReencodeKeepsValue(items[i]);
      }
    case Obj(fields) =>
      forall k | k in fields ensures SameValue(fields[k], Reencode(fields[k])) {
        ReencodeKeepsValue(fields[k]);
      }
    case _ =>
  }

  // ---- Text helpers of the Go standard library used on JSON strings ----

  /** unicode.IsSpace */
  predicate IsSpace(c: char) {
    || '\t' <= c <= '\r' || c == ' ' || c == '\U{85}' || c == '\U{A0}' || c == '\U{1680}'
    || '\U{2000}' <= c <= '\U{200A}' || c == '\U{2028}' || c == '\U{2029}' || c == '\U{202F}'
    || c == '\U{205F}' || c == '\U{3000}'
  }

  function TrimLeft(s: string): string {
    if s != "" && IsSpace(s[0]) then TrimLeft(s[1..]) else s
  }

  function TrimRight(s: string): (r: string)
    ensures r <= s
  {
    if s != "" && IsSpace(s[|s| - 1]) then TrimRight(s[..|s| - 1]) else s
  }

  /** strings.TrimSpace */
  function TrimSpace(s: string): string {
    TrimRight(TrimLeft(s))
  }

  lemma TrimSpaceIdempotent(s: string)
    ensures TrimSpace(TrimSpace(s)) == TrimSpace(s)
  {
    TrimLeftClean(s);
    TrimRightClean(TrimLeft(s));
  }

  lemma {:induction false} TrimLeftClean(s: string)
    ensures TrimLeft(s) != "" ==> !IsSpace(TrimLeft(s)[0])
  {
    if s != "" && IsSpace(s[0]) {
      TrimLeftClean(s[1..]);
    }
  }

  lemma {:induction false} TrimRightClean(s: string)
    ensures TrimRight(s) != "" ==> !IsSpace(TrimRight(s)[|TrimRight(s)| - 1])
  {
    if s != "" && IsSpace(s[|s| - 1]) {
      TrimRightClean(s[..|s| - 1]);
    }
  }

  /** c folds to the lower-case ASCII letter l: case, plus the Kelvin sign and the long s. */
  predicate FoldsTo(c: char, l: char) {
    c == l || c as int + 32 == l as int || (l == 'k' && c == '\U{212A}') || (l == 's' && c == '\U{17F}')
  }

  /** strings.EqualFold against a lower-case ASCII word */
  predicate EqualFold(s: string, word: string) {
    |s| == |word| && forall i :: 0 <= i < |s| ==> FoldsTo(s[i], word[i])
  }
}
