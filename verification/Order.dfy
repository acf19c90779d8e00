/** The order in which the source keeps names: character by character, a prefix first. */
module Order {
  predicate Less(a: string, b: string)
    decreases |a|
  {
    b != "" && (a == "" || a[0] < b[0] || (a[0] == b[0] && Less(a[1..], b[1..])))
  }

  lemma {:induction false} LessIsTotal(a: string, b: string)
    ensures Less(a, b) || a == b || Less(b, a)
    ensures !(Less(a, b) && Less(b, a)) && (a == b ==> !Less(a, b))
    decreases |a|
  {
    if a != "" && b != "" {
      LessIsTotal(a[1..], b[1..]);
      assert a == [a[0]] + a[1..] && b == [b[0]] + b[1..];
    }
  }

  lemma {:induction false} LessIsTransitive(a: string, b: string, c: string)
    requires Less(a, b) && Less(b, c)
    ensures Less(a, c)
    decreases |a|
  {
    if a != "" && a[0] == b[0] && b[0] == c[0] {
      LessIsTransitive(a[1..], b[1..], c[1..]);
    }
  }

  predicate IsLeast(name: string, names: set<string>) {
    name in names && forall other | other in names :: other == name || Less(name, other)
  }

  lemma {:induction false} SomeNameIsLeast(names: set<string>) returns (least: string)
    requires names != {}
    ensures IsLeast(least, names)
    decreases |names|
  {
    var name :| name in names;
    var rest := names - {name};
    if rest == {} {
      least := name;
      assert names == {name};
    } else {
      least := SomeNameIsLeast(rest);
      LessIsTotal(name, least);
      if Less(name, least) {
        forall other | other in rest
          ensures other == name || Less(name, other)
        {
          if other != least {
            LessIsTransitive(name, least, other);
          }
        }
        least := name;
      }
    }
  }

  /** The first of the names that are left, as an ordered set hands it out. */
  method Least(names: set<string>) returns (least: string)
    requires names != {}
    ensures IsLeast(least, names)
  {
    ghost var some := SomeNameIsLeast(names);
    least :| least in names && IsLeast(least, names);
  }
}
