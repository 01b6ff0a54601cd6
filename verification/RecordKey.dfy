/** The text key of a permission-use record, `<token>_<permission>_<type>_<identity>`, and when two
    different records share one. */
module RecordKey {

  // ---------------------------------------------------------------- decimal numbers

  function Digit(d: nat): char
    requires d < 10
  {
    "0123456789"[d]
  }

  function Decimal(n: nat): (s: string)
    ensures s != "" && '_' !in s
  {
    if n < 10 then [Digit(n)] else Decimal(n / 10) + [Digit(n % 10)]
  }

  lemma {:induction false} DecimalInjective(m: nat, n: nat)
    requires Decimal(m) == Decimal(n)
    ensures m == n
    decreases m + n
  {
    var s := Decimal(m);
    DecimalLength(m);
    DecimalLength(n);
    if m >= 10 {
      assert s[..|s| - 1] == Decimal(m / 10) == Decimal(n / 10);
      assert s[|s| - 1] == Digit(m % 10) == Digit(n % 10);
      DecimalInjective(m / 10, n / 10);
    } else {
      assert s[0] == Digit(m) == Digit(n);
    }
  }

  lemma DecimalLength(n: nat)
    ensures |Decimal(n)| == 1 <==> n < 10
  {
    assert n >= 10 ==> Decimal(n) == Decimal(n / 10) + [Digit(n % 10)];
  }

  // ---------------------------------------------------------------- keys

  /** Normal, picker or security component. */
  type UsedType = n: nat | n < 3

  datatype Subject = Subject(tokenId: nat, permission: string, usedType: UsedType, identity: string)

  function Key(r: Subject): string {
    Decimal(r.tokenId) + "_" + r.permission + "_" + Decimal(r.usedType) + "_" + r.identity
  }

  /** `longer` is `shorter` preceded by one or more fields, the last of which reads as a type. */
  predicate Absorbs(longer: string, shorter: string) {
    var n := |longer| - |shorter|;
    && n >= 2 && longer[n..] == shorter
    && longer[n - 1] == '_' && longer[n - 2] in "012" && (n > 2 ==> longer[n - 3] == '_')
  }

  lemma TypeText(t: UsedType)
    ensures |Decimal(t)| == 1 && Decimal(t)[0] in "012" && Decimal(t)[0] != '_'
    ensures forall u: UsedType :: Decimal(t)[0] == Decimal(u)[0] ==> t == u
  {
    forall u: UsedType | Decimal(t)[0] == Decimal(u)[0] ensures t == u {
      assert Decimal(t) == Decimal(u);
      DecimalInjective(t, u);
    }
  }

  /** Everything before the last two fields. */
  function Front(r: Subject): string {
    Decimal(r.tokenId) + "_" + r.permission
  }

  lemma KeyTail(r: Subject)
    ensures var k := Key(r); var n := |k| - |r.identity|;
      && n == |Front(r)| + 3 && k[n..] == r.identity && k[..n - 3] == Front(r)
      && k[n - 1] == '_' && k[n - 2] == Decimal(r.usedType)[0] && k[n - 3] == '_'
  {
    TypeText(r.usedType);
    assert Key(r) == Front(r) + ("_" + Decimal(r.usedType) + "_" + r.identity);
  }

  /** Text up to the first underscore is the token number. */
  lemma FrontInjective(r: Subject, s: Subject)
    requires Front(r) == Front(s)
    ensures r.tokenId == s.tokenId && r.permission == s.permission
  {
    var a, b, f := Decimal(r.tokenId), Decimal(s.tokenId), Front(r);
    assert f[|a|] == '_' && f[|b|] == '_' && f[..|a|] == a && f[..|b|] == b;
    assert forall x :: 0 <= x < |a| ==> f[x] == a[x] && f[x] != '_';
    assert forall x :: 0 <= x < |b| ==> f[x] == b[x] && f[x] != '_';
    DecimalInjective(r.tokenId, s.tokenId);
    assert f[|a| + 1..] == r.permission == s.permission;
  }

  lemma SameIdentityLength(r: Subject, s: Subject)
    requires Key(r) == Key(s) && |r.identity| == |s.identity|
    ensures r == s
  {
    KeyTail(r);
    KeyTail(s);
    TypeText(r.usedType);
    FrontInjective(r, s);
  }

  lemma {:induction false} LongerAbsorbs(r: Subject, s: Subject)
    requires Key(r) == Key(s) && |r.identity| > |s.identity|
    ensures Absorbs(r.identity, s.identity)
  {
    hide Key, Front, Decimal;
    KeyTail(r);
    KeyTail(s);
    TypeText(s.usedType);
    var k := Key(r);
    var n, d := |k| - |s.identity|, |r.identity| - |s.identity|;
    assert forall x :: 0 <= x < |r.identity| ==> r.identity[x] == k[n - d + x];
    assert r.identity[d..] == s.identity;
    assert k[n - d - 1] == '_' && k[n - 2] != '_';
    assert d != 1;
  }

  /** Records that share a key are the same, or one identity absorbs the other. */
  lemma CollisionShape(r: Subject, s: Subject)
    requires Key(r) == Key(s)
    ensures r == s || Absorbs(r.identity, s.identity) || Absorbs(s.identity, r.identity)
  {
    if |r.identity| == |s.identity| {
      SameIdentityLength(r, s);
    } else if |r.identity| > |s.identity| {
      LongerAbsorbs(r, s);
    } else {
      LongerAbsorbs(s, r);
    }
  }

  lemma TypeOf(c: char) returns (t: UsedType)
    requires c in "012"
    ensures Decimal(t) == [c]
  {
    t := if c == '0' then 0 else if c == '1' then 1 else 2;
  }

  /** Absorbing identities do collide, for every token, permission and type on the longer side; the other permission
      extends this one by at most the length of the longer identity. */
  lemma AbsorbingCollides(r: Subject, shorter: string) returns (s: Subject)
    requires Absorbs(r.identity, shorter)
    ensures s != r && s.identity == shorter && s.tokenId == r.tokenId && Key(s) == Key(r)
    ensures |r.permission| < |s.permission| <= |r.permission| + |r.identity|
  {
    hide Decimal;
    var i := r.identity;
    var n := |i| - |shorter|;
    var t := TypeOf(i[n - 2]);
    TypeText(r.usedType);
    var head := if n == 2 then "" else i[..n - 2];
    var extra := if n == 2 then "_" + Decimal(r.usedType) else "_" + Decimal(r.usedType) + "_" + i[..n - 3];
    s := Subject(r.tokenId, r.permission + extra, t, shorter);
    assert i == head + [i[n - 2]] + "_" + shorter;
    assert n > 2 ==> head == i[..n - 3] + "_";
    assert Front(s) == Front(r) + extra;
    SameText(Front(r), Decimal(r.usedType), i, n, shorter, extra, head);
  }

  lemma SameText(front: string, ty: string, i: string, n: nat, shorter: string, extra: string, head: string)
    requires 2 <= n <= |i| && i == head + [i[n - 2]] + "_" + shorter
    requires n == 2 ==> head == "" && extra == "_" + ty
    requires n > 2 ==> head == i[..n - 3] + "_" && extra == "_" + ty + "_" + i[..n - 3]
    ensures front + extra + "_" + [i[n - 2]] + "_" + shorter == front + "_" + ty + "_" + i
  {
    if n == 2 {
      assert i == [i[0]] + "_" + shorter;
    } else {
      assert i == i[..n - 3] + "_" + [i[n - 2]] + "_" + shorter;
    }
  }

  const MAX_LENGTH := 256
  const MAX_IDENTITY_LENGTH := 48

  /** What the kit admits of a token, a permission and an identity. */
  predicate Admissible(r: Subject) {
    r.tokenId != 0 && 0 < |r.permission| <= MAX_LENGTH && |r.identity| <= MAX_IDENTITY_LENGTH
  }

  /** Two identities can never be confused, whatever the token, permission and type, exactly when neither
      absorbs the other; and it is the same for the records that the kit admits. */
  lemma IdentitiesSeparate(i: string, j: string)
    requires i != j
    ensures (forall r: Subject, s: Subject :: r.identity == i && s.identity == j ==> Key(r) != Key(s)) <==>
      !Absorbs(i, j) && !Absorbs(j, i)
    ensures |i| <= MAX_IDENTITY_LENGTH && |j| <= MAX_IDENTITY_LENGTH ==>
      ((forall r: Subject, s: Subject ::
          r.identity == i && s.identity == j && Admissible(r) && Admissible(s) ==> Key(r) != Key(s)) <==>
       !Absorbs(i, j) && !Absorbs(j, i))
  {
    forall r: Subject, s: Subject | r.identity == i && s.identity == j && Key(r) == Key(s)
      ensures Absorbs(i, j) || Absorbs(j, i)
    {
      CollisionShape(r, s);
    }
    if Absorbs(i, j) {
      var r := Subject(1, "p", 0, i);
      var s := AbsorbingCollides(r, j);
      assert Key(r) == Key(s);
    } else if Absorbs(j, i) {
      var s := Subject(1, "p", 0, j);
      var r := AbsorbingCollides(s, i);
      assert Key(r) == Key(s);
    }
  }

  lemma AbsorbsNeedsUnderscore(longer: string, shorter: string)
    ensures Absorbs(longer, shorter) ==> '_' in longer
  {
  }

  /** In particular, keys separate all records whose identities have no underscore. */
  lemma KeysSeparate(r: Subject, s: Subject)
    requires '_' !in r.identity && '_' !in s.identity
    ensures Key(r) == Key(s) <==> r == s
  {
    if Key(r) == Key(s) {
      CollisionShape(r, s);
      AbsorbsNeedsUnderscore(r.identity, s.identity);
      AbsorbsNeedsUnderscore(s.identity, r.identity);
    }
  }
}
