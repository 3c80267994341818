/** Signs of products of reals, each fact in a lemma of its own. */
module Products {

  function Times(x: real, y: real): real {
    x * y
  }

  lemma TimesIsPositive(x: real, y: real)
    requires (x > 0.0 && y > 0.0) || (x < 0.0 && y < 0.0)
    ensures Times(x, y) > 0.0
  {
  }

  lemma SquareIsPositive(x: real)
    ensures Times(x, x) >= 0.0
    ensures x != 0.0 ==> Times(x, x) > 0.0
  {
    if x != 0.0 {
      TimesIsPositive(x, x);
    }
  }

  lemma TimesMonotone(x: real, y: real, w: real)
    requires x <= y && w >= 0.0
    ensures Times(x, w) <= Times(y, w)
  {
    if x < y && w > 0.0 {
      TimesIsPositive(y - x, w);
      assert Times(y, w) == Times(x, w) + Times(y - x, w);
    }
  }

  lemma TimesCommutes(x: real, y: real)
    ensures Times(x, y) == Times(y, x)
  {
  }

  lemma TimesSign(r: real, w: real)
    requires r != 0.0 && w > 0.0
    ensures r > 0.0 <==> Times(r, w) > 0.0
    ensures r < 0.0 <==> Times(r, w) < 0.0
  {
    if r > 0.0 {
      TimesIsPositive(r, w);
    } else {
      TimesIsPositive(-r, w);
      assert Times(r, w) == -Times(-r, w);
    }
  }

  lemma TimesSum(c: real, a: real, b: real)
    ensures Times(c, a + b) == Times(c, a) + Times(c, b)
  {
  }
}
