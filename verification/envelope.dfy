/** The voucher vendor's encrypted payload envelope (utils/encryption.js).
    AES and the JSON codec are not modelled: they are oracles, and what is
    modelled is which text gets enciphered and the envelope's fail-soft shape. */
module Envelope {
  import opened JsValues

  /** The codec under the fixed key and IV, as functions:
      - `encrypt(p)`: the base64 AES-256-CBC ciphertext of the UTF-8 text `p`;
        `cipher.update` accepts every string, so this never fails;
      - `open(x)`: the UTF-8 plaintext of the base64 ciphertext `x`, `None`
        when deciphering throws (not a string, bad padding, …);
      - `stringify(v)`: `JSON.stringify(v)` of an object;
      - `parse(p)`: `JSON.parse(p)`, `None` when it throws. */
  datatype Cipher = Cipher(
    encrypt: string -> string,
    open: JsValue -> Option<string>,
    stringify: JsValue -> string,
    parse: string -> Option<JsValue>)

  /** The text `encryptPayload` hands to the cipher: objects (and `null`,
      whose `typeof` is 'object') serialised, strings as they are. Any other
      value reaches `cipher.update` unconverted and makes it throw: `None`. */
  function Plaintext(c: Cipher, data: JsValue): Option<string> {
    match data
    case Obj(_) => Some(c.stringify(data))
    case Arr(_) => Some(c.stringify(data))
    case Null => Some(c.stringify(data))
    case Str(s) => Some(s)
    case _ => None
  }

  /** `encryptPayload(data)`: the ciphertext, or `data` itself when encryption throws. */
  function EncryptPayload(c: Cipher, data: JsValue): (r: JsValue)
    ensures data.Str? ==> r == Str(c.encrypt(data.s))
    ensures data.Obj? || data.Arr? || data.Null? ==> r == Str(c.encrypt(c.stringify(data)))
    ensures data.Undefined? || data.Bool? || data.Num? ==> r == data
  {
    match Plaintext(c, data)
    case None => data
    case Some(text) => Str(c.encrypt(text))
  }

  /** `decryptPayload(encrypted, parseJson)`: never throws; when deciphering or
      parsing fails, the input comes back unchanged. */
  function DecryptPayload(c: Cipher, encrypted: JsValue, parseJson: bool): (r: JsValue)
    ensures r != encrypted ==> c.open(encrypted).Some?
    ensures r != encrypted && parseJson ==> c.parse(c.open(encrypted).value) == Some(r)
    ensures r != encrypted && !parseJson ==> r == Str(c.open(encrypted).value)
    ensures c.open(encrypted).None? ==> r == encrypted
    ensures c.open(encrypted).Some? && parseJson && c.parse(c.open(encrypted).value).None? ==> r == encrypted
  {
    match c.open(encrypted)
    case None => encrypted
    case Some(plaintext) =>
      if !parseJson then Str(plaintext)
      else match c.parse(plaintext)
        case None => encrypted
        case Some(v) => v
  }

  /** No `undefined` anywhere inside `v`: `JSON.stringify` drops such object
      fields and writes such array elements as `null`. */
  predicate NoUndefined(v: JsValue) {
    match v
    case Undefined => false
    case Arr(xs) => forall i :: 0 <= i < |xs| ==> NoUndefined(xs[i])
    case Obj(m) => forall k :: k in m ==> NoUndefined(m[k])
    case _ => true
  }

  /** A value `encryptPayload` serialises and `JSON.parse` can rebuild. */
  predicate Serialisable(v: JsValue) {
    (v.Obj? || v.Arr? || v.Null?) && NoUndefined(v)
  }

  /** The assumption that AES under the shared key and IV round-trips texts.
      It is stated, never proved: the cipher is outside the model. */
  ghost predicate Deciphers(c: Cipher) {
    forall p: string :: c.open(Str(c.encrypt(p))) == Some(p)
  }

  /** The assumption that `JSON.parse` undoes `JSON.stringify` on serialisable values. */
  ghost predicate ParsesBack(c: Cipher) {
    forall v :: Serialisable(v) ==> c.parse(c.stringify(v)) == Some(v)
  }

  /** Under both assumptions, decrypting an encrypted serialisable payload
      gives back the original value. */
  lemma DecryptUndoesEncrypt(c: Cipher, v: JsValue)
    requires Deciphers(c) && ParsesBack(c) && Serialisable(v)
    ensures DecryptPayload(c, EncryptPayload(c, v), true) == v
  {
    assert c.open(Str(c.encrypt(c.stringify(v)))) == Some(c.stringify(v));
  }

  /** A string is enciphered as it is, not serialised: deciphering gets it back
      when no parse is asked, but with parsing (the default) a text that is
      not JSON makes `decryptPayload` return the ciphertext itself. */
  lemma SealedString(c: Cipher, s: string)
    requires Deciphers(c)
    ensures DecryptPayload(c, EncryptPayload(c, Str(s)), false) == Str(s)
    ensures c.parse(s).None? ==> DecryptPayload(c, EncryptPayload(c, Str(s)), true) == Str(c.encrypt(s))
    ensures c.parse(s).Some? ==> DecryptPayload(c, EncryptPayload(c, Str(s)), true) == c.parse(s).value
  {
    assert c.open(Str(c.encrypt(s))) == Some(s);
  }
}
