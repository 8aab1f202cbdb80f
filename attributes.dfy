/**
 * Column 9 of a GFF3 line. The converter keeps each feature's attributes in
 * a Python dict, which remembers insertion order; here that dict is the
 * sequence of its (key, value) pairs. feature_parser._join_attributes renders
 * it as key=value pairs joined by ';', escaping nothing.
 */
module Attributes {
  import opened Wrappers
  import opened Text

  type Attribute = (string, string)

  /** The keys of the dict, in insertion order. */
  function Keys(attrs: seq<Attribute>): seq<string>
  {
    if attrs == [] then [] else [attrs[0].0] + Keys(attrs[1..])
  }

  /** d.get(k): the value stored under k. */
  function Lookup(attrs: seq<Attribute>, k: string): Option<string>
  {
    if attrs == [] then None
    else if attrs[0].0 == k then Some(attrs[0].1)
    else Lookup(attrs[1..], k)
  }

  /**
   * d[k] = v: a key already present keeps its place and takes the new
   * value; a new key goes after all the others.
   */
  function Put(attrs: seq<Attribute>, k: string, v: string): seq<Attribute>
  {
    if attrs == [] then [(k, v)]
    else if attrs[0].0 == k then [(k, v)] + attrs[1..]
    else [attrs[0]] + Put(attrs[1..], k, v)
  }

  /** After d[k] = v, d[k] is v, every other key keeps its value, and the keys keep their order. */
  lemma {:induction false} PutSpec(attrs: seq<Attribute>, k: string, v: string)
    ensures Lookup(Put(attrs, k, v), k) == Some(v)
    ensures forall k' | k' != k :: Lookup(Put(attrs, k, v), k') == Lookup(attrs, k')
    ensures k in Keys(attrs) ==> Keys(Put(attrs, k, v)) == Keys(attrs)
    ensures k !in Keys(attrs) ==> Keys(Put(attrs, k, v)) == Keys(attrs) + [k]
  {
    if attrs != [] && attrs[0].0 != k {
      PutSpec(attrs[1..], k, v);
    }
  }

  /** Setting a key the dict does not hold appends the pair. */
  lemma {:induction false} PutAbsent(attrs: seq<Attribute>, k: string, v: string)
    requires k !in Keys(attrs)
    ensures Put(attrs, k, v) == attrs + [(k, v)]
  {
    if attrs != [] {
      PutAbsent(attrs[1..], k, v);
      assert attrs == [attrs[0]] + attrs[1..];
    }
  }

  /** One pair as _join_attributes writes it. */
  function Pair(a: Attribute): string
  {
    a.0 + "=" + a.1
  }

  function Pairs(attrs: seq<Attribute>): (l: seq<string>)
    ensures |l| == |attrs|
  {
    seq(|attrs|, i requires 0 <= i < |attrs| => Pair(attrs[i]))
  }

  /** The rendered column: the pairs in insertion order, separated by ';'. */
  function Joined(attrs: seq<Attribute>): string
  {
    Join(Pairs(attrs), ';')
  }

  /** feature_parser._join_attributes. */
  method JoinAttributes(attrs: seq<Attribute>) returns (s: string)
    ensures s == Joined(attrs)
  {
    var l: seq<string> := [];
    for i := 0 to |attrs|
      invariant |l| == i
      invariant forall j | 0 <= j < i :: l[j] == Pair(attrs[j])
    {
      l := l + [Pair(attrs[i])];
    }
    assert l == Pairs(attrs);
    s := Join(l, ';');
  }

  /** Reads one piece of column 9 back: the key before the first '=', the value after it. */
  function SplitPair(p: string): Attribute
  {
    if p == [] then ("", "")
    else if p[0] == '=' then ("", p[1..])
    else
      var kv := SplitPair(p[1..]);
      ([p[0]] + kv.0, kv.1)
  }

  /** Reads column 9 back into its pairs. */
  function ParseAttributes(s: string): seq<Attribute>
  {
    var pieces := Split(s, ';');
    seq(|pieces|, i requires 0 <= i < |pieces| => SplitPair(pieces[i]))
  }

  lemma {:induction false} SplitPairOfPair(a: Attribute)
    requires '=' !in a.0
    ensures SplitPair(Pair(a)) == a
    decreases |a.0|
  {
    var p := Pair(a);
    if a.0 != [] {
      SplitPairOfPair((a.0[1..], a.1));
      assert p[1..] == Pair((a.0[1..], a.1));
      assert a.0 == [a.0[0]] + a.0[1..];
    } else {
      assert p == "=" + a.1;
    }
  }

  /** Keys and values that column 9 can carry unescaped. */
  predicate Plain(attrs: seq<Attribute>)
  {
    forall i | 0 <= i < |attrs| :: '=' !in attrs[i].0 && ';' !in attrs[i].0 && ';' !in attrs[i].1
  }

  /** Reading the rendered column back gives the same pairs, in the same order. */
  lemma ParseJoined(attrs: seq<Attribute>)
    requires |attrs| >= 1 && Plain(attrs)
    ensures ParseAttributes(Joined(attrs)) == attrs
  {
    var l := Pairs(attrs);
    forall i | 0 <= i < |l| ensures ';' !in l[i] {
      assert l[i] == attrs[i].0 + "=" + attrs[i].1;
    }
    SplitJoin(l, ';');
    forall i | 0 <= i < |attrs| ensures SplitPair(l[i]) == attrs[i] {
      SplitPairOfPair(attrs[i]);
    }
  }
}
