/**
 * The floating-field generator of the hero section: a fixed number of
 * decorative `div`s, each with a randomly drawn shape, colour, size,
 * position and animation timing, appended to the hero container in order.
 *
 * `Math.random()` is not modelled as a generator: every value it returns is
 * injected as a real number in [0, 1), seven per element, in the order the
 * generator reads them.
 */
module FloatingField {

  datatype Option<T> = None | Some(value: T)

  /** Number of elements one call appends. */
  const FloatingCount: nat := 25

  /** The `shapes` array; each name is also a CSS class of the element. */
  const Shapes: seq<string> := ["circle", "square", "triangle", "diamond"]

  /** The `colors` palette. */
  const Colors: seq<string> := ["#9E7CC1", "#79589F", "#4A3171", "#FD9A69"]

  /** The size is `floor(r * SizeSpan) + MinSize` pixels. */
  const SizeSpan: nat := 40
  const MinSize: nat := 15

  /** Class every generated element carries besides its shape. */
  const FloatingClass := "floating-element"

  /** The seven `Math.random()` results one iteration consumes, in reading order. */
  datatype Draws = Draws(shape: real, color: real, size: real,
                         left: real, top: real, duration: real, delay: real)

  /** What `Math.random()` guarantees: every draw lies in [0, 1). */
  predicate Unit(r: real) { 0.0 <= r < 1.0 }

  predicate ValidDraws(d: Draws)
  {
    Unit(d.shape) && Unit(d.color) && Unit(d.size) &&
    Unit(d.left) && Unit(d.top) && Unit(d.duration) && Unit(d.delay)
  }

  /**
   * The inline style of a generated element. Pixel sizes are integers;
   * percentages and seconds are the exact real values before they are
   * formatted into CSS text.
   */
  datatype Style = Style(
    widthPx: int,
    heightPx: int,
    backgroundColor: string,
    leftPercent: real,
    topPercent: real,
    animationDurationSec: real,
    animationDelaySec: real,
    borderBottomColor: Option<string>)

  /** A child of the hero container: markup that was already there, or a generated element. */
  datatype Node =
    | Existing(markup: string)
    | Floating(classes: seq<string>, style: Style)

  /** `Math.floor(r * n)`: the array index drawn from one random value. */
  function Pick(r: real, n: nat): (i: nat)
    requires Unit(r) && n > 0
    ensures i < n
    ensures i as real <= r * n as real < i as real + 1.0
  {
    PickBounds(r, n);
    (r * n as real).Floor
  }

  lemma PickBounds(r: real, n: nat)
    requires Unit(r) && n > 0
    ensures 0.0 <= r * n as real < n as real
  {
    assert r * n as real <= 1.0 * n as real;
    assert (1.0 - r) * n as real > 0.0;
  }

  /**
   * Every index is drawn from an interval of width 1/n, so each of the n
   * entries is equally likely: Pick(r, n) == i exactly when r lies in
   * [i/n, (i+1)/n).
   */
  lemma PickInterval(r: real, n: nat, i: nat)
    requires Unit(r) && n > 0 && i < n
    ensures Pick(r, n) == i <==> i as real / n as real <= r < (i as real + 1.0) / n as real
  {
    var x, lo, hi := r * n as real, i as real / n as real, (i as real + 1.0) / n as real;
    assert lo * n as real == i as real && hi * n as real == i as real + 1.0;
    assert lo <= r <==> lo * n as real <= x;
    assert r < hi <==> x < hi * n as real;
  }

  /** `Math.floor(Math.random() * 40) + 15`. */
  function Size(r: real): (s: int)
    requires Unit(r)
    ensures MinSize <= s < MinSize + SizeSpan
    ensures 15 <= s <= 54
  {
    Pick(r, SizeSpan) + MinSize
  }

  /** The size bounds are tight: every pixel size from 15 to 54 can be drawn, and 55 cannot. */
  lemma SizeAttainable(s: int)
    requires 15 <= s <= 54
    ensures exists r :: Unit(r) && Size(r) == s
  {
    var r := (s - 15) as real / 40.0;
    assert r * 40.0 == (s - 15) as real;
    assert Size(r) == s;
  }

  /** Every shape and every colour can be drawn. */
  lemma PickAttainable(n: nat, i: nat)
    requires i < n
    ensures exists r :: Unit(r) && Pick(r, n) == i
  {
    var r := i as real / n as real;
    assert r * n as real == i as real;
    assert Pick(r, n) == i;
  }

  /** A generated element as the loop body builds it. */
  predicate WellFormed(node: Node)
  {
    && node.Floating?
    && |node.classes| == 2
    && node.classes[0] == FloatingClass
    && node.classes[1] in Shapes
    && node.style.backgroundColor in Colors
    && 15 <= node.style.widthPx <= 54
    && node.style.heightPx == node.style.widthPx
    && 0.0 <= node.style.leftPercent < 100.0
    && 0.0 <= node.style.topPercent < 100.0
    && 7.0 <= node.style.animationDurationSec < 15.0
    && 0.0 <= node.style.animationDelaySec < 5.0
    && node.style.borderBottomColor ==
         (if node.classes[1] == "triangle" then Some(node.style.backgroundColor) else None)
  }

  /**
   * One iteration of the loop: the element built from one set of draws.
   * The fill colour is set for every shape; a triangle also gets the same
   * colour as its bottom border colour.
   */
  function MakeElement(d: Draws): (node: Node)
    requires ValidDraws(d)
    ensures WellFormed(node)
    ensures node.classes[1] == Shapes[Pick(d.shape, |Shapes|)]
    ensures node.style.backgroundColor == Colors[Pick(d.color, |Colors|)]
    ensures node.style.widthPx == Size(d.size)
  {
    var shape := Shapes[Pick(d.shape, |Shapes|)];
    var color := Colors[Pick(d.color, |Colors|)];
    var size := Size(d.size);
    Floating([FloatingClass, shape],
      Style(size, size, color,
        d.left * 100.0, d.top * 100.0, d.duration * 8.0 + 7.0, d.delay * 5.0,
        if shape == "triangle" then Some(color) else None))
  }

  /** The elements one call appends, in generation order. */
  function FloatingElements(draws: seq<Draws>): (field: seq<Node>)
    requires forall k :: 0 <= k < |draws| ==> ValidDraws(draws[k])
    ensures |field| == |draws|
    ensures forall k :: 0 <= k < |field| ==> WellFormed(field[k])
  {
    seq(|draws|, k requires 0 <= k < |draws| => MakeElement(draws[k]))
  }

  /** Only triangles get a border colour, and it always equals their fill. */
  lemma TriangleBorder(d: Draws)
    requires ValidDraws(d)
    ensures MakeElement(d).style.borderBottomColor.Some? <==>
              Pick(d.shape, |Shapes|) == 2
    ensures MakeElement(d).style.borderBottomColor.Some? ==>
              MakeElement(d).style.borderBottomColor.value == MakeElement(d).style.backgroundColor
  {
  }

  /** The hero container, whose child list the generator appends to. */
  class Hero {
    var children: seq<Node>

    constructor (children: seq<Node>)
      ensures this.children == children
    {
      this.children := children;
    }

    method AppendChild(node: Node)
      modifies this
      ensures children == old(children) + [node]
    {
      children := children + [node];
    }
  }

  /**
   * `createFloatingElements`: with no hero container nothing happens;
   * otherwise 25 elements are appended after the existing children, in
   * generation order.
   */
  method CreateFloatingElements(hero: Hero?, draws: seq<Draws>)
    requires |draws| == FloatingCount
    requires forall k :: 0 <= k < |draws| ==> ValidDraws(draws[k])
    modifies hero
    ensures hero != null ==> hero.children == old(hero.children) + FloatingElements(draws)
  {
    if hero == null {
      return;
    }
    for i := 0 to FloatingCount
      invariant hero.children == old(hero.children) + FloatingElements(draws[..i])
    {
      var element := MakeElement(draws[i]);
      hero.AppendChild(element);
      assert draws[..i + 1] == draws[..i] + [draws[i]];
    }
    assert draws[..FloatingCount] == draws;
  }
}
