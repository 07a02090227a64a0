/** Values shared by every part of the cloner: optional values, ids as PHP passes
    them around, the metabox argument array, and decimal rendering of ids. */
module Common {

  datatype Option<+T> = None | Some(value: T) {
    function GetOr(default: T): T {
      match this
      case Some(v) => v
      case None => default
    }
  }

  /** A post, site or relationship id. PHP code in the cloner uses `false` for
      "no id"; here that is 0, so an id is truthy exactly when it is positive. */
  type Id = nat

  /** The argument array that a metabox posts back and that `Cloner_Relationship`
      and `Cloner_Copier` are built from. `None` is a key the array does not hold;
      `Some(0)` is a key holding `false`. */
  datatype Metabox = Metabox(
    action: Option<string>,       // 'cloner-action'
    sourceBlog: Option<Id>,       // 'source-blog'
    sourcePost: Option<Id>,       // 'source-post'
    targetBlog: Option<Id>,       // 'target-blog'
    targetPost: Option<Id>,       // 'target-post'
    html: Option<string>)         // 'html', added after an action ran

  /** `$args[key] ?? false`: a missing key reads as false. */
  function OrFalse(v: Option<Id>): (r: Id)
    ensures v.None? ==> r == 0
    ensures v.Some? ==> r == v.value
  {
    v.GetOr(0)
  }

  /** PHP truthiness of a string: "" and "0" are falsy. */
  predicate TruthyString(s: string) {
    s != "" && s != "0"
  }

  function DigitChar(d: nat): (c: char)
    requires d < 10
    ensures '0' <= c <= '9'
  {
    (48 + d) as char
  }

  /** The decimal form PHP gives an integer when it is concatenated into a string. */
  function Decimal(n: nat): (s: string)
    ensures |s| > 0
    ensures n >= 10 ==> |s| >= 2
    ensures forall i :: 0 <= i < |s| ==> '0' <= s[i] <= '9'
  {
    if n < 10 then [DigitChar(n)] else Decimal(n / 10) + [DigitChar(n % 10)]
  }

  /** Two different ids never render to the same decimal string. */
  lemma {:induction false} DecimalInjective(a: nat, b: nat)
    requires Decimal(a) == Decimal(b)
    ensures a == b
  {
    if a >= 10 && b >= 10 {
      var sa, sb := Decimal(a), Decimal(b);
      assert sa[|sa| - 1] == DigitChar(a % 10);
      assert sb[|sb| - 1] == DigitChar(b % 10);
      assert Decimal(a / 10) == sa[..|sa| - 1] == sb[..|sb| - 1] == Decimal(b / 10);
      DecimalInjective(a / 10, b / 10);
    } else if a < 10 && b < 10 {
      assert Decimal(a)[0] == DigitChar(a);
    }
  }

  /** The group key `"<blog>:<post>"` a relationship record is created under. */
  function GroupKey(blog: Id, post: Id): (k: string)
    ensures |k| >= 3 && ':' in k
  {
    Decimal(blog) + ":" + Decimal(post)
  }

  /** A group key names its origin: different (blog, post) pairs give different keys. */
  lemma GroupKeyInjective(b1: Id, p1: Id, b2: Id, p2: Id)
    requires GroupKey(b1, p1) == GroupKey(b2, p2)
    ensures b1 == b2 && p1 == p2
  {
    var d1, d2 := Decimal(b1), Decimal(b2);
    var k := GroupKey(b1, p1);
    // the key's first ':' sits right after the blog id, in both readings
    assert k == d1 + ":" + Decimal(p1) && k == d2 + ":" + Decimal(p2);
    assert k[|d1|] == ':' && k[|d2|] == ':';
    assert forall i :: 0 <= i < |d1| ==> k[i] == d1[i] != ':';
    assert forall i :: 0 <= i < |d2| ==> k[i] == d2[i] != ':';
    assert d1 == k[..|d1|] == d2;
    DecimalInjective(b1, b2);
    assert Decimal(p1) == k[|d1| + 1..] == Decimal(p2);
    DecimalInjective(p1, p2);
  }
}
