/**
  Identifier case conversion used for every generated name
  (`_to_camel_case` and `_to_pascal_case`): split on `_`, then capitalise pieces.
 */
module Casing {
  import opened Text

  /** `w.capitalize()` on ASCII: first character upper case, all others lower case. */
  function Capitalize(w: string): (r: string)
    ensures |r| == |w|
    ensures Lower(r) == Lower(w)
    ensures |w| > 0 ==> !IsAsciiLower(r[0])
    ensures forall i :: 1 <= i < |r| ==> !IsAsciiUpper(r[i])
    ensures '_' in r <==> '_' in w
  {
    if |w| == 0 then ""
    else
      var r := [UpperChar(w[0])] + Lower(w[1..]);
      assert forall i :: 0 <= i < |w| ==> Lower(r)[i] == Lower(w)[i];
      assert forall i :: 0 <= i < |w| ==> (r[i] == '_' <==> w[i] == '_') by {
        forall i | 0 <= i < |w| {
          CaseMapKeepsNonLetters(w[i], '_');
        }
      }
      r
  }

  /** Capitalisation only sees the letters up to case: equal lower-case forms capitalise alike. */
  lemma CapitalizeIgnoresCase(v: string, w: string)
    requires Lower(v) == Lower(w)
    ensures Capitalize(v) == Capitalize(w)
  {
    if |v| > 0 {
      assert LowerChar(v[0]) == Lower(v)[0] == LowerChar(w[0]);
      UpperOfLowerChar(v[0]);
      UpperOfLowerChar(w[0]);
      assert Lower(v[1..]) == Lower(v)[1..];
      assert Lower(w[1..]) == Lower(w)[1..];
    }
  }

  /** `''.join(x.capitalize() for x in parts)`. */
  function CapitalizeAll(parts: seq<string>): (r: string)
    ensures (forall k :: 0 <= k < |parts| ==> '_' !in parts[k]) ==> '_' !in r
  {
    if |parts| == 0 then ""
    else
      assert forall k :: 0 <= k < |parts| - 1 ==> parts[1..][k] == parts[k + 1];
      Capitalize(parts[0]) + CapitalizeAll(parts[1..])
  }

  lemma CapitalizeAllSingle(parts: seq<string>)
    ensures |parts| == 1 ==> CapitalizeAll(parts) == Capitalize(parts[0])
  {
    if |parts| == 1 {
      assert parts[1..] == [];
      assert Capitalize(parts[0]) + "" == Capitalize(parts[0]);
    }
  }

  /** Ignoring case, capitalising every piece is gluing the pieces together. */
  lemma {:induction false} LowerCapitalizeAll(parts: seq<string>)
    ensures Lower(CapitalizeAll(parts)) == Lower(Join(parts, ""))
  {
    if |parts| > 0 {
      LowerCapitalizeAll(parts[1..]);
      LowerConcat(Capitalize(parts[0]), CapitalizeAll(parts[1..]));
      LowerConcat(parts[0], Join(parts[1..], ""));
      JoinNoSeparator(parts);
    }
  }

  /** `''.join` of a non-empty list is its head followed by the join of its tail. */
  lemma JoinNoSeparator(parts: seq<string>)
    requires |parts| > 0
    ensures Join(parts, "") == parts[0] + Join(parts[1..], "")
  {
    if |parts| == 1 {
      assert parts[1..] == [];
      assert parts[0] + "" == parts[0];
    } else {
      assert parts[0] + "" == parts[0];
    }
  }

  /** `s` with every `c` removed: an independent reference for what the conversions keep. */
  function Without(s: string, c: char): (r: string)
    ensures c !in r
    ensures |r| == |s| - multiset(s)[c]
  {
    if |s| == 0 then ""
    else
      assert s == [s[0]] + s[1..];
      if s[0] == c then Without(s[1..], c) else [s[0]] + Without(s[1..], c)
  }

  /** `_to_camel_case`: the first piece verbatim, every later piece capitalised. */
  function CamelCase(s: string): (r: string)
    ensures '_' !in r
    ensures '_' !in s ==> r == s
  {
    var parts := Split(s, '_');
    JoinSplit(s, '_');
    assert '_' !in s ==> multiset(s)['_'] == 0;
    parts[0] + CapitalizeAll(parts[1..])
  }

  /** An identifier with no underscore at any position is its own camel case. */
  lemma CamelCaseOfIdentifier(id: string)
    requires forall k :: 0 <= k < |id| ==> id[k] != '_'
    ensures CamelCase(id) == id
  {
    assert '_' !in id;
  }

  /** `_to_pascal_case`: every piece capitalised. */
  function PascalCase(s: string): (r: string)
    ensures '_' !in r
    ensures '_' !in s ==> r == Capitalize(s)
  {
    var parts := Split(s, '_');
    JoinSplit(s, '_');
    assert '_' !in s ==> multiset(s)['_'] == 0;
    CapitalizeAllSingle(parts);
    CapitalizeAll(parts)
  }

  /** Gluing the pieces of a split back together without separators removes exactly the separators. */
  lemma {:induction false} JoinSplitIsWithout(s: string, c: char)
    ensures Join(Split(s, c), "") == Without(s, c)
    decreases |s|
  {
    if |s| > 0 {
      JoinSplitIsWithout(s[1..], c);
      var rest := Split(s[1..], c);
      if s[0] == c {
        assert ([""] + rest)[1..] == rest;
        assert Join([""] + rest, "") == "" + "" + Join(rest, "");
      } else {
        JoinGlue(s[0], rest, "");
      }
    }
  }

  /**
    Ignoring case, camel case just deletes the underscores: no other
    character is dropped, added or moved.
   */
  lemma CamelCaseDropsOnlyUnderscores(s: string)
    ensures Lower(CamelCase(s)) == Lower(Without(s, '_'))
    ensures |CamelCase(s)| == |s| - multiset(s)['_']
  {
    var parts := Split(s, '_');
    var tail := CapitalizeAll(parts[1..]);
    JoinSplitIsWithout(s, '_');
    LowerCapitalizeAll(parts[1..]);
    LowerConcat(parts[0], tail);
    LowerConcat(parts[0], Join(parts[1..], ""));
    JoinNoSeparator(parts);
    assert CamelCase(s) == parts[0] + tail;
    assert |Lower(CamelCase(s))| == |CamelCase(s)|;
  }

  /** Ignoring case, Pascal case also deletes exactly the underscores. */
  lemma PascalCaseDropsOnlyUnderscores(s: string)
    ensures Lower(PascalCase(s)) == Lower(Without(s, '_'))
    ensures |PascalCase(s)| == |s| - multiset(s)['_']
  {
    JoinSplitIsWithout(s, '_');
    LowerCapitalizeAll(Split(s, '_'));
    assert |Lower(PascalCase(s))| == |PascalCase(s)|;
  }

  /**
    Camel and Pascal case differ only in the first piece, which Pascal case
    capitalises and camel case keeps verbatim.
   */
  lemma CamelAndPascalShareTail(s: string)
    ensures var head := Split(s, '_')[0];
      && |head| <= |CamelCase(s)|
      && |head| <= |PascalCase(s)|
      && CamelCase(s)[..|head|] == head
      && PascalCase(s)[..|head|] == Capitalize(head)
      && CamelCase(s)[|head|..] == PascalCase(s)[|head|..]
  {
    var parts := Split(s, '_');
    assert parts == [parts[0]] + parts[1..];
    assert PascalCase(s) == Capitalize(parts[0]) + CapitalizeAll(parts[1..]);
  }

  /** The first `_` ends the first piece: `a_b` splits into `a` and the pieces of `b`. */
  lemma SplitAtFirstUnderscore(a: string, b: string)
    requires '_' !in a
    ensures Split(a + "_" + b, '_') == [a] + Split(b, '_')
  {
    assert a + "_" + b == a + (['_'] + b);
    SplitPrefix(a, ['_'] + b, '_');
    SplitAfterSeparator(b, '_');
    assert a + "" == a;
  }

  /** Pascal case capitalises the text before the first `_` and continues on the rest. */
  lemma PascalCaseUnderscore(a: string, b: string)
    requires '_' !in a
    ensures PascalCase(a + "_" + b) == Capitalize(a) + PascalCase(b)
  {
    SplitAtFirstUnderscore(a, b);
    var parts := [a] + Split(b, '_');
    assert parts[0] == a && parts[1..] == Split(b, '_');
  }

  /** Camel case keeps the text before the first `_` and Pascal-cases the rest. */
  lemma CamelCaseUnderscore(a: string, b: string)
    requires '_' !in a
    ensures CamelCase(a + "_" + b) == a + PascalCase(b)
  {
    SplitAtFirstUnderscore(a, b);
    var parts := [a] + Split(b, '_');
    assert parts[0] == a && parts[1..] == Split(b, '_');
  }

  lemma SplitExample()
    ensures Split("get_product_by_id", '_') == ["get", "product", "by", "id"]
  {
    var parts := ["get", "product", "by", "id"];
    assert Join(parts[3..], "_") == "id";
    assert Join(parts[2..], "_") == "by_id";
    assert Join(parts[1..], "_") == "product_by_id";
    assert Join(parts, "_") == "get_product_by_id";
    SplitJoin(parts, '_');
  }

  lemma CapitalizeAllExample()
    ensures CapitalizeAll(["product", "by", "id"]) == "ProductById"
  {
    var parts := ["product", "by", "id"];
    Spelled();
    LowerOfRests();
    CapitalizeCons('p', "roduct");
    CapitalizeCons('b', "y");
    CapitalizeCons('i', "d");
    assert parts[1..] == ["by", "id"] && parts[1..][1..] == ["id"] && parts[1..][1..][1..] == [];
    assert "Id" + "" == "Id";
  }

  /** The pieces of a snake-case name: `get_product_by_id` becomes `getProductById`. */
  lemma CamelCaseExample()
    ensures CamelCase("get_product_by_id") == "getProductById"
  {
    var s := "get_product_by_id";
    SplitExample();
    assert ["get", "product", "by", "id"][1..] == ["product", "by", "id"];
    CapitalizeAllExample();
    Spelled();
  }

  /** Capitalising a word is upper-casing its first character and lower-casing the rest. */
  lemma CapitalizeCons(c: char, rest: string)
    ensures Capitalize([c] + rest) == [UpperChar(c)] + Lower(rest)
  {
    assert ([c] + rest)[1..] == rest;
  }

  /** The literals of the examples, spelled out as the concatenations the proofs build. */
  lemma Spelled()
    ensures "getProductById" == "g" + "etProductById" && "Getproductbyid" == "G" + "etproductbyid"
    ensures "products" == "p" + "roducts" && "Products" == "P" + "roducts"
    ensures "product" == "p" + "roduct" && "by" == "b" + "y" && "id" == "i" + "d"
    ensures "ProductById" == "Product" + ("By" + "Id")
    ensures "getProductById" == "get" + "ProductById"
  {
  }

  lemma LowerOfRests()
    ensures Lower("etProductById") == "etproductbyid"
    ensures Lower("roducts") == "roducts" && Lower("roduct") == "roduct"
    ensures Lower("y") == "y" && Lower("d") == "d"
  {
    var v := Lower("etProductById");
    assert v[0] == 'e' && v[1] == 't' && v[2] == 'p' && v[3] == 'r' && v[4] == 'o' && v[5] == 'd' && v[6] == 'u';
    assert v[7] == 'c' && v[8] == 't' && v[9] == 'b' && v[10] == 'y' && v[11] == 'i' && v[12] == 'd';
    var w := Lower("roducts");
    assert w[0] == 'r' && w[1] == 'o' && w[2] == 'd' && w[3] == 'u' && w[4] == 'c' && w[5] == 't' && w[6] == 's';
    var x := Lower("roduct");
    assert x[0] == 'r' && x[1] == 'o' && x[2] == 'd' && x[3] == 'u' && x[4] == 'c' && x[5] == 't';
    assert Lower("y")[0] == 'y' && Lower("d")[0] == 'd';
  }

  /** The example identifiers hold no `_`. */
  lemma NoUnderscores()
    ensures '_' !in "getProductById" && '_' !in "products"
  {
    var s := "getProductById";
    forall i | 0 <= i < |s| ensures s[i] != '_' {}
    var t := "products";
    forall i | 0 <= i < |t| ensures t[i] != '_' {}
  }

  lemma CapitalizeExample()
    ensures Capitalize("getProductById") == "Getproductbyid"
  {
    Spelled();
    LowerOfRests();
    CapitalizeCons('g', "etProductById");
  }

  /**
    An operationId without underscores is lower-cased after its first letter:
    `getProductById` becomes the action type text `Getproductbyid`.
   */
  lemma PascalCaseExample()
    ensures PascalCase("getProductById") == "Getproductbyid"
  {
    NoUnderscores();
    CapitalizeExample();
  }

  /** The tag `products` becomes the `Products` of `ProductsActions` and `ProductsState`. */
  lemma PascalCaseTagExample()
    ensures PascalCase("products") == "Products"
  {
    NoUnderscores();
    Spelled();
    LowerOfRests();
    CapitalizeCons('p', "roducts");
  }
}
