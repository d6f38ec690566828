/** The byte-exact admin authorization that the repository's tests pin. */
module GoldenVector {
  import opened Outcomes
  import opened ByteStrings
  import opened Rlp
  import opened Codecs
  import opened Authorization

  const KEY_ID: Address20 :=
    [0xaa, 0xaa, 0xaa, 0xaa, 0, 0, 0, 0, 0, 0,
     0, 0, 0, 0, 0, 0, 0, 0, 0, 0]

  const ACCOUNT: Address20 :=
    [0xf3, 0x9f, 0xd6, 0xe5, 0x1a, 0xad, 0x88, 0xf6, 0xf4, 0xce,
     0x6a, 0xb8, 0x82, 0x72, 0x79, 0xcf, 0xff, 0xb9, 0x22, 0x66]

  const ADMIN: KeyAuthorization := KeyAuthorization(KEY_ID, 1337, Some(ACCOUNT), 0, 0, None, None, [], true)

  lemma {:induction false} EncodeAllCons(x: Item, xs: seq<Item>)
    requires Encode(x).Some? && EncodeAll(xs).Some?
    ensures EncodeAll([x] + xs) == Some(Encode(x).value + EncodeAll(xs).value)
  {
    assert ([x] + xs)[1..] == xs;
  }

  lemma {:induction false} AdminItems()
    ensures ToRlp(ADMIN) ==
            List([Bytes([0x05, 0x39]), Bytes([]), Bytes(KEY_ID), Bytes([]), Bytes([]), Bytes([]), Bytes([]),
                  Bytes([1]), Bytes(ACCOUNT)])
  {
    AdminScalars();
    AdminOptionals();
    var t := Trailing(Optionals(ADMIN));
    TrailingShape(Optionals(ADMIN));
    assert |t| == 6;
    assert t == [Bytes([]), Bytes([]), Bytes([]), Bytes([]), Bytes([1]), Bytes(ACCOUNT)];
  }

  lemma {:induction false} AdminScalars()
    ensures PutInt(1337) == Bytes([0x05, 0x39]) && PutInt(1) == Bytes([1]) && PutInt(0) == Bytes([])
  {
    assert ScalarBytes(5) == [5];
  }

  lemma {:induction false} AdminOptionals()
    ensures Optionals(ADMIN) == [None, None, None, None, Some(Bytes([1])), Some(Bytes(ACCOUNT))]
  {
    AdminScalars();
  }

  lemma {:induction false} EmptyEncoding()
    ensures Encode(Bytes([])) == Some([0x80])
  {
    assert [0x80] + [] == [0x80];
  }

  /** An empty string in front adds one byte. */
  lemma {:induction false} EncodeAllAfterEmpty(xs: seq<Item>)
    requires EncodeAll(xs).Some?
    ensures EncodeAll([Bytes([])] + xs) == Some([0x80] + EncodeAll(xs).value)
  {
    EmptyEncoding();
    EncodeAllCons(Bytes([]), xs);
  }

  lemma {:induction false} AddressEncoding(a: Address20)
    ensures Encode(Bytes(a)) == Some([0x94] + a)
  {
  }

  lemma {:induction false} AccountEncoding()
    ensures EncodeAll([Bytes(ACCOUNT)]) == Some([0x94] + ACCOUNT)
  {
    AddressEncoding(ACCOUNT);
    EncodeAllCons(Bytes(ACCOUNT), []);
    assert [Bytes(ACCOUNT)] + [] == [Bytes(ACCOUNT)];
    assert [0x94] + ACCOUNT + [] == [0x94] + ACCOUNT;
  }

  /** The optionals: four absent ones, the admin marker and the account */
  lemma {:induction false} OptionalsEncoding()
    ensures var e := [Bytes([])];
            EncodeAll(e + (e + (e + (e + ([Bytes([1])] + [Bytes(ACCOUNT)])))))
            == Some([0x80] + ([0x80] + ([0x80] + ([0x80] + ([0x01] + ([0x94] + ACCOUNT))))))
  {
    AccountEncoding();
    var t0 := [Bytes([1])] + [Bytes(ACCOUNT)];
    assert Encode(Bytes([1])) == Some([1]);
    EncodeAllCons(Bytes([1]), [Bytes(ACCOUNT)]);
    EncodeAllAfterEmpty(t0);
    var t1 := [Bytes([])] + t0;
    EncodeAllAfterEmpty(t1);
    var t2 := [Bytes([])] + t1;
    EncodeAllAfterEmpty(t2);
    EncodeAllAfterEmpty([Bytes([])] + t2);
  }

  /** The three mandatory items in front of any others */
  lemma {:induction false} HeadEncoding(xs: seq<Item>)
    requires EncodeAll(xs).Some?
    ensures EncodeAll([Bytes([0x05, 0x39])] + ([Bytes([])] + ([Bytes(KEY_ID)] + xs)))
         == Some([0x82, 0x05, 0x39] + ([0x80] + ([0x94] + KEY_ID + EncodeAll(xs).value)))
  {
    AddressEncoding(KEY_ID);
    EncodeAllCons(Bytes(KEY_ID), xs);
    var t := [Bytes(KEY_ID)] + xs;
    EncodeAllAfterEmpty(t);
    assert [0x82] + [0x05, 0x39] == [0x82, 0x05, 0x39];
    assert Encode(Bytes([0x05, 0x39])) == Some([0x82, 0x05, 0x39]);
    EncodeAllCons(Bytes([0x05, 0x39]), [Bytes([])] + t);
  }

  const ADMIN_PAYLOAD: seq<byte> :=
    [0x82, 0x05, 0x39, 0x80, 0x94] + KEY_ID + [0x80, 0x80, 0x80, 0x80, 0x01, 0x94] + ACCOUNT

  lemma {:induction false} Flatten(k: seq<byte>, a: seq<byte>)
    ensures [0x82, 0x05, 0x39] + ([0x80] + ([0x94] + k
              + ([0x80] + ([0x80] + ([0x80] + ([0x80] + ([0x01] + ([0x94] + a))))))))
         == [0x82, 0x05, 0x39, 0x80, 0x94] + k + [0x80, 0x80, 0x80, 0x80, 0x01, 0x94] + a
  {
    var optionals := [0x80] + ([0x80] + ([0x80] + ([0x80] + ([0x01] + ([0x94] + a)))));
    assert optionals == [0x80, 0x80, 0x80, 0x80, 0x01, 0x94] + a;
  }

  lemma {:induction false} PayloadEncoding()
    ensures EncodeAll(ToRlp(ADMIN).items) == Some(ADMIN_PAYLOAD)
  {
    AdminItems();
    OptionalsEncoding();
    var e := [Bytes([])];
    var tail := e + (e + (e + (e + ([Bytes([1])] + [Bytes(ACCOUNT)]))));
    HeadEncoding(tail);
    assert ToRlp(ADMIN).items == [Bytes([0x05, 0x39])] + (e + ([Bytes(KEY_ID)] + tail));
    Flatten(KEY_ID, ACCOUNT);
  }

  /** `rlp.encode(ka.to_rlp())` for the admin key of the test */
  lemma {:induction false} AdminEncoding()
    ensures Encode(ToRlp(ADMIN)) ==
            Some([0xf3, 0x82, 0x05, 0x39, 0x80, 0x94] + KEY_ID + [0x80, 0x80, 0x80, 0x80, 0x01, 0x94] + ACCOUNT)
  {
    PayloadEncoding();
    FrameOf51(ADMIN_PAYLOAD);
    assert [0xf3] + ADMIN_PAYLOAD ==
      [0xf3, 0x82, 0x05, 0x39, 0x80, 0x94] + KEY_ID + [0x80, 0x80, 0x80, 0x80, 0x01, 0x94] + ACCOUNT;
  }

  lemma {:induction false} FrameOf51(payload: seq<byte>)
    requires |payload| == 51
    ensures Frame(true, payload) == Some([0xf3] + payload)
  {
  }
}
