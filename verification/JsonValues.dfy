/**
 JSON values and the comparisons ansible/synology/roles/synology_app_portal/files/apply_app_portal.py
 makes between them. Numbers are whole.
*/
module JsonValues {
  import opened Decimal
  import opened Wrappers

  datatype Json =
    | Null
    | Bool(b: bool)
    | Num(n: int)
    | Str(s: string)
    | List(items: seq<Json>)
    | Obj(fields: map<string, Json>)

  /** Python's ==: True is 1 and False is 0, at any depth. */
  predicate PyEqual(a: Json, b: Json) {
    Plainly(a) == Plainly(b)
  }

  function Plainly(j: Json): Json {
    match j
    case Bool(b) => Num(if b then 1 else 0)
    case List(items) => List(seq(|items|, i requires 0 <= i < |items| => Plainly(items[i])))
    case Obj(fields) => Obj(map k | k in fields :: Plainly(fields[k]))
    case _ => j
  }

  predicate Truthy(j: Json) {
    match j
    case Null => false
    case Bool(b) => b
    case Num(n) => n != 0
    case Str(s) => s != ""
    case List(items) => items != []
    case Obj(fields) => fields.Keys != {}
  }

  /** `str(j)` of what is not a container; a container's text is not modelled. */
  function Text(j: Json): string {
    match j
    case Null => "None"
    case Bool(b) => if b then "True" else "False"
    case Num(n) => if n < 0 then "-" + PrintNat(-n) else PrintNat(n)
    case Str(s) => s
    case _ => ""
  }

  predicate Scalar(j: Json) {
    !j.List? && !j.Obj?
  }

  /** `e.get(field)`, with None for an absent field. */
  function Get(e: Json, field: string): Json {
    if e.Obj? && field in e.fields then e.fields[field] else Null
  }

  /** `_covered` */
  predicate Covered(desired: Json, live: Json) {
    if desired.Obj? then
      live.Obj? && forall k :: k in desired.fields ==> k in live.fields && Covered(desired.fields[k], live.fields[k])
    else PyEqual(desired, live)
  }

  /** What a server that keeps everything it is sent may show: more fields, at any depth. */
  predicate Extends(sent: Json, kept: Json) {
    if sent.Obj? then
      kept.Obj? && forall k :: k in sent.fields ==> k in kept.fields && Extends(sent.fields[k], kept.fields[k])
    else sent == kept
  }

  lemma {:induction false} CoveredReflexive(a: Json)
    ensures Covered(a, a)
  {
    if a.Obj? {
      forall k | k in a.fields ensures Covered(a.fields[k], a.fields[k]) {
        CoveredReflexive(a.fields[k]);
      }
    }
  }

  lemma {:induction false} CoveredTransitive(a: Json, b: Json, c: Json)
    requires Covered(a, b) && Covered(b, c)
    ensures Covered(a, c)
  {
    if a.Obj? {
      forall k | k in a.fields ensures k in c.fields && Covered(a.fields[k], c.fields[k]) {
        CoveredTransitive(a.fields[k], b.fields[k], c.fields[k]);
      }
    }
  }

  /** Both ways covered is Python's equality. */
  lemma {:induction false} CoveredAntisymmetric(a: Json, b: Json)
    ensures Covered(a, b) && Covered(b, a) <==> PyEqual(a, b)
  {
    if a.Obj? && b.Obj? {
      forall k | k in a.fields && k in b.fields
        ensures Covered(a.fields[k], b.fields[k]) && Covered(b.fields[k], a.fields[k]) <==>
          PyEqual(a.fields[k], b.fields[k])
      {
        CoveredAntisymmetric(a.fields[k], b.fields[k]);
      }
      FieldsEqual(a, b);
    }
  }

  lemma FieldsEqual(a: Json, b: Json)
    requires a.Obj? && b.Obj?
    ensures PyEqual(a, b) <==>
      a.fields.Keys == b.fields.Keys && forall k :: k in a.fields ==> PyEqual(a.fields[k], b.fields[k])
  {
    var x, y := map k | k in a.fields :: Plainly(a.fields[k]), map k | k in b.fields :: Plainly(b.fields[k]);
    assert Plainly(a) == Obj(x) && Plainly(b) == Obj(y);
    if x == y {
      assert x.Keys == a.fields.Keys && y.Keys == b.fields.Keys;
      forall k | k in a.fields ensures PyEqual(a.fields[k], b.fields[k]) {
        assert x[k] == y[k];
      }
    }
    if a.fields.Keys == b.fields.Keys && forall k :: k in a.fields ==> PyEqual(a.fields[k], b.fields[k]) {
      assert forall k :: k in x ==> x[k] == y[k];
      assert x == y;
    }
  }

  lemma {:induction false} ExtendsReflexive(a: Json)
    ensures Extends(a, a)
  {
    if a.Obj? {
      forall k | k in a.fields ensures Extends(a.fields[k], a.fields[k]) {
        ExtendsReflexive(a.fields[k]);
      }
    }
  }

  lemma {:induction false} ExtendsTransitive(a: Json, b: Json, c: Json)
    requires Extends(a, b) && Extends(b, c)
    ensures Extends(a, c)
  {
    if a.Obj? {
      forall k | k in a.fields ensures k in c.fields && Extends(a.fields[k], c.fields[k]) {
        ExtendsTransitive(a.fields[k], b.fields[k], c.fields[k]);
      }
    }
  }

  lemma {:induction false} ExtendsCovers(a: Json, b: Json)
    requires Extends(a, b)
    ensures Covered(a, b)
  {
    if a.Obj? {
      forall k | k in a.fields ensures Covered(a.fields[k], b.fields[k]) {
        ExtendsCovers(a.fields[k], b.fields[k]);
      }
    }
  }
}
