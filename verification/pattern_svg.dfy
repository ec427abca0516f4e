/**
  `Pattern.toSVGTree` and the non-browser `toSVG`: the pattern as a tree of
  minimal XML nodes (`sNode`), and the string a node renders to. Turning a
  number into a string (`String(n)`, template interpolation), a colour into
  CSS (`color.css()`) and rounding (`+x.toFixed(d)`) are supplied as a
  `Formatter`.
*/
module PatternSvg {

  import opened Wrappers
  import opened Mulberry32
  import opened Geom
  import opened Chroma
  import opened Settings
  import opened Options
  import opened Trianglify

  /** An attribute value: `undefined` attributes are left out when
      serialising. */
  datatype AttrValue = Undefined | Str(s: string) | Num(n: real)

  /** An attribute object, in insertion order. */
  type Attrs = seq<(string, AttrValue)>

  /** `sNode(tagName, attrs, children)`. */
  datatype SNode = SNode(tagName: string, attrs: Attrs, children: Children)

  /** The optional `children` array of a node. */
  datatype Children = NoChildren | Nodes(list: seq<SNode>)

  datatype Formatter = Formatter(
    number: real -> string,       // String(n)
    css: Color -> string,         // color.css()
    toFixed: (real, nat) -> real) // +x.toFixed(digits)

  const SvgNamespace: string := "http://www.w3.org/2000/svg"

  // ---------------------------------------------------------------------
  // Strings
  // ---------------------------------------------------------------------

  /** `parts.join(sep)`. */
  function Join(parts: seq<string>, sep: string): string
    decreases |parts|
  {
    if |parts| == 0 then ""
    else if |parts| == 1 then parts[0]
    else parts[0] + sep + Join(parts[1..], sep)
  }

  /** `String(v)`. */
  function ValueString(v: AttrValue, fmt: Formatter): string {
    match v
    case Undefined => "undefined"
    case Str(s) => s
    case Num(n) => fmt.number(n)
  }

  /** `key='value'`. */
  function AttrString(key: string, v: AttrValue, fmt: Formatter): (r: string)
    ensures |r| >= 3
  {
    key + "='" + ValueString(v, fmt) + "'"
  }

  /** The attributes whose value is defined, in order. */
  function Defined(attrs: Attrs): (r: Attrs)
    ensures forall i :: 0 <= i < |r| ==> !r[i].1.Undefined? && r[i] in attrs
    ensures forall i :: 0 <= i < |attrs| && !attrs[i].1.Undefined? ==> attrs[i] in r
    decreases |attrs|
  {
    if attrs == [] then []
    else if attrs[0].1.Undefined? then Defined(attrs[1..])
    else [attrs[0]] + Defined(attrs[1..])
  }

  function AttrStrings(attrs: Attrs, fmt: Formatter): (r: seq<string>)
    ensures |r| == |attrs|
    ensures forall i :: 0 <= i < |r| ==> r[i] == AttrString(attrs[i].0, attrs[i].1, fmt)
    decreases |attrs|
  {
    if attrs == [] then [] else [AttrString(attrs[0].0, attrs[0].1, fmt)] + AttrStrings(attrs[1..], fmt)
  }

  /** `serializeAttrs`: drop the undefined values, render each remaining
      attribute as `key='value'`, join with single spaces. */
  function SerializeAttrs(attrs: Attrs, fmt: Formatter): (r: string)
    ensures r == "" <==> forall i :: 0 <= i < |attrs| ==> attrs[i].1.Undefined?
  {
    var defined := Defined(attrs);
    var parts := AttrStrings(defined, fmt);
    JoinEmpty(parts, " ");
    assert defined != [] ==> defined[0] in attrs;
    Join(parts, " ")
  }

  /** `node.toString()`: the opening tag (always followed by a space, even
      with no attributes), the children's text, the closing tag. */
  function Render(node: SNode, fmt: Formatter): (r: string)
    ensures |r| >= 2 * |node.tagName| + 5
    ensures r[..|node.tagName| + 2] == "<" + node.tagName + " "
    ensures r[|r| - |node.tagName| - 3..] == "</" + node.tagName + ">"
    decreases node, 1
  {
    "<" + node.tagName + " " + SerializeAttrs(node.attrs, fmt) + ">"
      + (if node.children.Nodes? then RenderAll(node.children.list, fmt) else "")
      + "</" + node.tagName + ">"
  }

  /** `children.map(c => c.toString()).join('')`. */
  function RenderAll(nodes: seq<SNode>, fmt: Formatter): (r: string)
    ensures r == "" <==> nodes == []
    ensures nodes != [] ==> r[0] == '<'
    decreases nodes, 0
  {
    if nodes == [] then "" else Render(nodes[0], fmt) + RenderAll(nodes[1..], fmt)
  }

  /** Joining a list that starts with `x`: `x`, then the separator and the
      rest when there is a rest. */
  lemma JoinCons(x: string, rest: seq<string>, sep: string)
    ensures Join([x] + rest, sep) == if rest == [] then x else x + sep + Join(rest, sep)
  {
    assert ([x] + rest)[1..] == rest;
  }

  /** Serialising attributes, one at a time: an undefined value contributes
      nothing; a defined one contributes `key='value'`, separated from what
      follows by one space when anything follows. */
  lemma SerializeAttrsCons(key: string, v: AttrValue, rest: Attrs, fmt: Formatter)
    ensures v.Undefined? ==> SerializeAttrs([(key, v)] + rest, fmt) == SerializeAttrs(rest, fmt)
    ensures !v.Undefined? ==>
      SerializeAttrs([(key, v)] + rest, fmt)
        == if SerializeAttrs(rest, fmt) == "" then AttrString(key, v, fmt)
           else AttrString(key, v, fmt) + " " + SerializeAttrs(rest, fmt)
  {
    var attrs := [(key, v)] + rest;
    assert attrs[1..] == rest;
    if !v.Undefined? {
      var tail := AttrStrings(Defined(rest), fmt);
      assert AttrStrings(Defined(attrs), fmt) == [AttrString(key, v, fmt)] + tail by {
        assert Defined(attrs) == [(key, v)] + Defined(rest);
        assert (([(key, v)] + Defined(rest))[1..]) == Defined(rest);
      }
      JoinCons(AttrString(key, v, fmt), tail, " ");
      JoinEmpty(tail, " ");
    }
  }

  /** A join is empty only when there is nothing to join or the one part is
      empty; attribute strings are never empty. */
  lemma JoinEmpty(parts: seq<string>, sep: string)
    requires forall i :: 0 <= i < |parts| ==> |parts[i]| > 0
    ensures Join(parts, sep) == "" <==> parts == []
  {
    if |parts| > 0 {
      assert |Join(parts, sep)| >= |parts[0]|;
    }
  }

  /** A concrete node: the undefined attribute is skipped, numbers are
      formatted, and a node without children closes at once. */
  lemma RenderExample(fmt: Formatter)
    requires fmt.number(2.0) == "2"
    ensures Render(SNode("rect", [("a", Str("x")), ("b", Undefined), ("c", Num(2.0))], NoChildren), fmt)
         == "<rect a='x' c='2'></rect>"
  {
    var attrs: Attrs := [("a", Str("x")), ("b", Undefined), ("c", Num(2.0))];
    var text := SerializeAttrs(attrs, fmt);
    SerializeAttrsExample(fmt);
    RenderNoChildren("rect", attrs, fmt);
    RenderLiteral(text);
  }

  lemma RenderLiteral(text: string)
    requires text == "a='x' c='2'"
    ensures "<" + "rect" + " " + text + "></" + "rect" + ">" == "<rect a='x' c='2'></rect>"
  {
  }

  lemma SerializeAttrsExample(fmt: Formatter)
    requires fmt.number(2.0) == "2"
    ensures SerializeAttrs([("a", Str("x")), ("b", Undefined), ("c", Num(2.0))], fmt) == "a='x' c='2'"
  {
    var attrs: Attrs := [("a", Str("x")), ("b", Undefined), ("c", Num(2.0))];
    SerializeAttrsTailExample(fmt);
    assert [("a", Str("x"))] + attrs[1..] == attrs;
    SerializeAttrsCons("a", Str("x"), attrs[1..], fmt);
    assert AttrString("a", Str("x"), fmt) == "a='x'";
  }

  lemma SerializeAttrsTailExample(fmt: Formatter)
    requires fmt.number(2.0) == "2"
    ensures SerializeAttrs([("b", Undefined), ("c", Num(2.0))], fmt) == "c='2'"
  {
    SerializeAttrsCons("c", Num(2.0), [], fmt);
    assert [("c", Num(2.0))] + [] == [("c", Num(2.0))];
    SerializeAttrsCons("b", Undefined, [("c", Num(2.0))], fmt);
    assert [("b", Undefined)] + [("c", Num(2.0))] == [("b", Undefined), ("c", Num(2.0))];
    assert AttrString("c", Num(2.0), fmt) == "c='2'";
  }

  /** A node whose `children` is missing renders exactly like one whose
      `children` is the empty array. */
  lemma RenderNoChildren(tag: string, attrs: Attrs, fmt: Formatter)
    ensures Render(SNode(tag, attrs, NoChildren), fmt) == Render(SNode(tag, attrs, Nodes([])), fmt)
    ensures Render(SNode(tag, attrs, NoChildren), fmt)
         == "<" + tag + " " + SerializeAttrs(attrs, fmt) + "></" + tag + ">"
  {
  }

  /** Children are written one after another, in order: rendering a
      concatenation is concatenating the renderings. */
  lemma {:induction false} RenderAllAppend(xs: seq<SNode>, ys: seq<SNode>, fmt: Formatter)
    ensures RenderAll(xs + ys, fmt) == RenderAll(xs, fmt) + RenderAll(ys, fmt)
    decreases |xs|
  {
    if xs == [] {
      assert xs + ys == ys;
    } else {
      assert (xs + ys)[0] == xs[0];
      assert (xs + ys)[1..] == xs[1..] + ys;
      RenderAllAppend(xs[1..], ys, fmt);
    }
  }

  /** A node with children is its opening tag, each child's text in order,
      and its closing tag. */
  lemma RenderChildren(tag: string, attrs: Attrs, first: SNode, rest: seq<SNode>, fmt: Formatter)
    ensures Render(SNode(tag, attrs, Nodes([first] + rest)), fmt)
         == "<" + tag + " " + SerializeAttrs(attrs, fmt) + ">" + Render(first, fmt)
            + RenderAll(rest, fmt) + "</" + tag + ">"
  {
    assert ([first] + rest)[1..] == rest;
  }

  // ---------------------------------------------------------------------
  // The tree
  // ---------------------------------------------------------------------

  /** The caller's SVG options; absent ones take the defaults. */
  datatype SvgOptions = SvgOptions(includeNamespace: Option<bool>, coordinateDecimals: Option<real>)

  /** `roundedPoints`: unchanged for negative `coordinateDecimals`; otherwise
      each coordinate through `+x.toFixed(d)`, where `toFixed` truncates `d`
      to an integer and throws a RangeError above 100. */
  function RoundPoints(points: seq<Point>, decimals: real, fmt: Formatter): (r: Result<seq<Point>, Error>)
    ensures decimals < 0.0 ==> r == Ok(points)
    ensures r.Err? <==> decimals >= 0.0 && decimals.Floor > 100 && |points| > 0
    ensures r.Ok? && decimals >= 0.0 ==>
      |r.value| == |points|
      && forall i :: 0 <= i < |points| ==>
           r.value[i] == Point(fmt.toFixed(points[i].x, decimals.Floor), fmt.toFixed(points[i].y, decimals.Floor))
  {
    if decimals < 0.0 then Ok(points)
    else if decimals.Floor > 100 && |points| > 0 then Err(DecimalsOutOfRange)
    else Ok(seq(|points|, i requires 0 <= i < |points| =>
                 Point(fmt.toFixed(points[i].x, decimals.Floor), fmt.toFixed(points[i].y, decimals.Floor))))
  }

  /** `${x},${y}` of the point at `index`. */
  function XY(p: Point, fmt: Formatter): string {
    fmt.number(p.x) + "," + fmt.number(p.y)
  }

  /** The `xys` of a polygon: one `x,y` per vertex index, in order. */
  function VertexStrings(vertexIndices: seq<nat>, points: seq<Point>, fmt: Formatter): (r: Result<seq<string>, Error>)
    ensures r.Ok? <==> forall i :: 0 <= i < |vertexIndices| ==> vertexIndices[i] < |points|
    ensures r.Ok? ==> (|r.value| == |vertexIndices|
      && forall i :: 0 <= i < |vertexIndices| ==> r.value[i] == XY(points[vertexIndices[i]], fmt))
    decreases |vertexIndices|
  {
    if vertexIndices == [] then Ok([])
    else if vertexIndices[0] >= |points| then Err(MissingVertex(vertexIndices[0]))
    else
      var rest := VertexStrings(vertexIndices[1..], points, fmt);
      assert forall i :: 1 <= i < |vertexIndices| ==> vertexIndices[i] == vertexIndices[1..][i - 1];
      if rest.Err? then rest
      else Ok([XY(points[vertexIndices[0]], fmt)] + rest.value)
  }

  /** The path's `d`: `M`, the vertices joined by `L`, then `Z`. */
  function PathData(vertexIndices: seq<nat>, points: seq<Point>, fmt: Formatter): Result<string, Error> {
    var xys :- VertexStrings(vertexIndices, points, fmt);
    Ok("M" + Join(xys, "L") + "Z")
  }

  /** The value stored under `key` (the first one), `Undefined` if none. */
  function AttrOf(attrs: Attrs, key: string): AttrValue
    decreases |attrs|
  {
    if attrs == [] then Undefined
    else if attrs[0].0 == key then attrs[0].1
    else AttrOf(attrs[1..], key)
  }

  /** Looking up a key in a list that starts with `(k, v)`. */
  lemma AttrOfCons(k: string, v: AttrValue, rest: Attrs, key: string)
    ensures AttrOf([(k, v)] + rest, key) == if k == key then v else AttrOf(rest, key)
  {
    assert ([(k, v)] + rest)[1..] == rest;
  }

  /** One `path` node. `fill` and `shape-rendering` are set exactly when
      `fill` is on; `stroke`, `stroke-width` and `stroke-linejoin` exactly
      when `strokeWidth > 0`. */
  function PathNode(poly: Poly, points: seq<Point>, opts: Settings, fmt: Formatter): (r: Result<SNode, Error>)
    ensures r.Ok? <==> PathData(poly.vertexIndices, points, fmt).Ok?
    ensures r.Ok? ==>
      var n := r.value;
      var css := Str(fmt.css(poly.color));
      var hasStroke := opts.strokeWidth > 0.0;
      && n.tagName == "path" && n.children.NoChildren?
      && |n.attrs| == 6
      && n.attrs[0].0 == "d" && n.attrs[1].0 == "fill" && n.attrs[2].0 == "stroke"
      && n.attrs[3].0 == "stroke-width" && n.attrs[4].0 == "stroke-linejoin" && n.attrs[5].0 == "shape-rendering"
      && AttrOf(n.attrs, "d") == Str(PathData(poly.vertexIndices, points, fmt).value)
      && AttrOf(n.attrs, "fill") == (if opts.fill then css else Undefined)
      && AttrOf(n.attrs, "shape-rendering") == (if opts.fill then Str("crispEdges") else Undefined)
      && AttrOf(n.attrs, "stroke") == (if hasStroke then css else Undefined)
      && AttrOf(n.attrs, "stroke-width") == (if hasStroke then Num(opts.strokeWidth) else Undefined)
      && AttrOf(n.attrs, "stroke-linejoin") == (if hasStroke then Str("round") else Undefined)
  {
    var d :- PathData(poly.vertexIndices, points, fmt);
    var hasStroke := opts.strokeWidth > 0.0;
    var css := fmt.css(poly.color);
    var a5: Attrs := [("shape-rendering", if opts.fill then Str("crispEdges") else Undefined)];
    var a4 := [("stroke-linejoin", if hasStroke then Str("round") else Undefined)] + a5;
    var a3 := [("stroke-width", if hasStroke then Num(opts.strokeWidth) else Undefined)] + a4;
    var a2 := [("stroke", if hasStroke then Str(css) else Undefined)] + a3;
    var a1 := [("fill", if opts.fill then Str(css) else Undefined)] + a2;
    var a0 := [("d", Str(d))] + a1;
    forall key: string
      ensures AttrOf(a0, key) ==
        if key == "d" then a0[0].1 else if key == "fill" then a1[0].1
        else if key == "stroke" then a2[0].1 else if key == "stroke-width" then a3[0].1
        else if key == "stroke-linejoin" then a4[0].1 else if key == "shape-rendering" then a5[0].1
        else Undefined
    {
      AttrOfCons(a0[0].0, a0[0].1, a1, key);
      AttrOfCons(a1[0].0, a1[0].1, a2, key);
      AttrOfCons(a2[0].0, a2[0].1, a3, key);
      AttrOfCons(a3[0].0, a3[0].1, a4, key);
      AttrOfCons(a4[0].0, a4[0].1, a5, key);
      AttrOfCons(a5[0].0, a5[0].1, [], key);
    }
    Ok(SNode("path", a0, NoChildren))
  }

  /** `polys.map(...)`: one path per polygon, in order. */
  function Paths(polys: seq<Poly>, points: seq<Point>, opts: Settings, fmt: Formatter): (r: Result<seq<SNode>, Error>)
    ensures r.Ok? <==> forall k :: 0 <= k < |polys| ==> PathNode(polys[k], points, opts, fmt).Ok?
    ensures r.Ok? ==> (|r.value| == |polys|
      && forall k :: 0 <= k < |polys| ==> r.value[k] == PathNode(polys[k], points, opts, fmt).value)
    decreases |polys|
  {
    if polys == [] then Ok([])
    else
      var rest := Paths(polys[1..], points, opts, fmt);
      assert forall k :: 1 <= k < |polys| ==> polys[k] == polys[1..][k - 1];
      match PathNode(polys[0], points, opts, fmt)
      case Err(e) => Err(e)
      case Ok(node) =>
        if rest.Err? then rest
        else Ok([node] + rest.value)
  }

  /** `toSVGTree(svgOpts)`: an `svg` root carrying the namespace (unless
      switched off), the width and the height, with one path per polygon. */
  function ToSvgTree(pattern: Pattern, svgOpts: SvgOptions, fmt: Formatter): (r: Result<SNode, Error>)
    ensures r.Ok? ==>
      var s := pattern.opts.settings;
      && r.value.tagName == "svg"
      && |r.value.attrs| == 3
      && r.value.attrs[0].0 == "xmlns" && r.value.attrs[1].0 == "width" && r.value.attrs[2].0 == "height"
      && AttrOf(r.value.attrs, "xmlns")
           == (if svgOpts.includeNamespace.GetOr(true) then Str(SvgNamespace) else Undefined)
      && AttrOf(r.value.attrs, "width") == Num(s.width)
      && AttrOf(r.value.attrs, "height") == Num(s.height)
      && r.value.children.Nodes? && |r.value.children.list| == |pattern.polys|
  {
    var s := pattern.opts.settings;
    var ns := svgOpts.includeNamespace.GetOr(true);
    var rounded :- RoundPoints(pattern.points, svgOpts.coordinateDecimals.GetOr(1.0), fmt);
    var paths :- Paths(pattern.polys, rounded, s, fmt);
    var a2: Attrs := [("height", Num(s.height))];
    var a1 := [("width", Num(s.width))] + a2;
    var a0 := [("xmlns", if ns then Str(SvgNamespace) else Undefined)] + a1;
    forall key: string
      ensures AttrOf(a0, key) ==
        if key == "xmlns" then a0[0].1 else if key == "width" then a1[0].1
        else if key == "height" then a2[0].1 else Undefined
    {
      AttrOfCons(a0[0].0, a0[0].1, a1, key);
      AttrOfCons(a1[0].0, a1[0].1, a2, key);
      AttrOfCons(a2[0].0, a2[0].1, [], key);
    }
    Ok(SNode("svg", a0, Nodes(paths)))
  }

  /** `toSVG(destSVG, svgOpts)` outside a browser: the destination element is
      ignored and the result is the tree, an `svg` root with one path per
      polygon, made unless the rounding throws or a vertex is missing. */
  function ToSvg<D>(pattern: Pattern, destSvg: Option<D>, svgOpts: SvgOptions, fmt: Formatter): (r: Result<SNode, Error>)
    ensures var d := svgOpts.coordinateDecimals.GetOr(1.0);
      r.Ok? <==> !(d >= 0.0 && d.Floor > 100 && |pattern.points| > 0) && VerticesIn(pattern.polys, pattern.points)
    ensures r.Ok? ==>
      && r.value.tagName == "svg"
      && AttrOf(r.value.attrs, "width") == Num(pattern.opts.settings.width)
      && AttrOf(r.value.attrs, "height") == Num(pattern.opts.settings.height)
      && r.value.children.Nodes? && |r.value.children.list| == |pattern.polys|
  {
    ToSvgTreeOk(pattern, svgOpts, fmt);
    ToSvgTree(pattern, svgOpts, fmt)
  }

  // ---------------------------------------------------------------------
  // Properties
  // ---------------------------------------------------------------------

  /** Every vertex index of every polygon names a point. */
  predicate VerticesIn(polys: seq<Poly>, points: seq<Point>) {
    forall k, i :: 0 <= k < |polys| && 0 <= i < |polys[k].vertexIndices| ==> polys[k].vertexIndices[i] < |points|
  }

  /** A triangle's path moves to the first vertex, draws lines to the other
      two and closes: `M x0,y0 L x1,y1 L x2,y2 Z` without the spaces. */
  lemma TrianglePath(i0: nat, i1: nat, i2: nat, points: seq<Point>, fmt: Formatter)
    requires i0 < |points| && i1 < |points| && i2 < |points|
    ensures PathData([i0, i1, i2], points, fmt)
         == Ok("M" + XY(points[i0], fmt) + "L" + XY(points[i1], fmt) + "L" + XY(points[i2], fmt) + "Z")
  {
    var xys := VertexStrings([i0, i1, i2], points, fmt).value;
    assert xys == [XY(points[i0], fmt), XY(points[i1], fmt), XY(points[i2], fmt)];
    JoinThree(xys[0], xys[1], xys[2], "L");
    assert PathData([i0, i1, i2], points, fmt) == Ok("M" + (xys[0] + "L" + xys[1] + "L" + xys[2]) + "Z");
    Flatten("M", xys[0], "L", xys[1], xys[2], "Z");
  }

  lemma Flatten(m: string, x0: string, l: string, x1: string, x2: string, z: string)
    ensures m + (x0 + l + x1 + l + x2) + z == m + x0 + l + x1 + l + x2 + z
  {
  }

  lemma JoinThree(a: string, b: string, c: string, sep: string)
    ensures Join([a, b, c], sep) == a + sep + b + sep + c
  {
    assert [a, b, c][1..] == [b, c];
    assert [b, c][1..] == [c];
    assert Join([b, c], sep) == b + sep + c;
    assert Join([a, b, c], sep) == a + sep + (b + sep + c);
  }

  /** The tree is built exactly when the rounding does not throw and every
      polygon's vertices exist; a rounding error is reported before a
      missing vertex. */
  lemma ToSvgTreeOk(pattern: Pattern, svgOpts: SvgOptions, fmt: Formatter)
    ensures var d := svgOpts.coordinateDecimals.GetOr(1.0);
      var roundingThrows := d >= 0.0 && d.Floor > 100 && |pattern.points| > 0;
      var r := ToSvgTree(pattern, svgOpts, fmt);
      && (r.Ok? <==> !roundingThrows && VerticesIn(pattern.polys, pattern.points))
      && (roundingThrows ==> r == Err(DecimalsOutOfRange))
      && (!roundingThrows && !VerticesIn(pattern.polys, pattern.points) ==> r.Err? && r.error.MissingVertex?)
  {
    var d := svgOpts.coordinateDecimals.GetOr(1.0);
    var rounded := RoundPoints(pattern.points, d, fmt);
    if rounded.Ok? {
      var pts := rounded.value;
      assert |pts| == |pattern.points|;
      var paths := Paths(pattern.polys, pts, pattern.opts.settings, fmt);
      if VerticesIn(pattern.polys, pattern.points) {
        forall k | 0 <= k < |pattern.polys|
          ensures PathNode(pattern.polys[k], pts, pattern.opts.settings, fmt).Ok?
        {
          assert forall i :: 0 <= i < |pattern.polys[k].vertexIndices| ==> pattern.polys[k].vertexIndices[i] < |pts|;
        }
      } else {
        var k, i :| 0 <= k < |pattern.polys| && 0 <= i < |pattern.polys[k].vertexIndices|
          && pattern.polys[k].vertexIndices[i] >= |pattern.points|;
        assert !PathNode(pattern.polys[k], pts, pattern.opts.settings, fmt).Ok?;
        assert paths.Err?;
        PathsError(pattern.polys, pts, pattern.opts.settings, fmt);
      }
    }
  }

  /** The only error a path can give is a missing vertex. */
  lemma {:induction false} PathsError(polys: seq<Poly>, points: seq<Point>, opts: Settings, fmt: Formatter)
    ensures Paths(polys, points, opts, fmt).Err? ==> Paths(polys, points, opts, fmt).error.MissingVertex?
    decreases |polys|
  {
    if polys != [] {
      PathsError(polys[1..], points, opts, fmt);
      VertexStringsError(polys[0].vertexIndices, points, fmt);
    }
  }

  lemma {:induction false} VertexStringsError(vertexIndices: seq<nat>, points: seq<Point>, fmt: Formatter)
    ensures VertexStrings(vertexIndices, points, fmt).Err? ==> VertexStrings(vertexIndices, points, fmt).error.MissingVertex?
    decreases |vertexIndices|
  {
    if vertexIndices != [] {
      VertexStringsError(vertexIndices[1..], points, fmt);
    }
  }

  /** The children of the root are the polygons' paths in polygon order,
      drawn with the rounded points, or with the points unchanged when
      `coordinateDecimals` is negative. */
  lemma ToSvgTreeChildren(pattern: Pattern, svgOpts: SvgOptions, fmt: Formatter)
    requires ToSvgTree(pattern, svgOpts, fmt).Ok?
    ensures var d := svgOpts.coordinateDecimals.GetOr(1.0);
      var rounded := RoundPoints(pattern.points, d, fmt);
      var children := ToSvgTree(pattern, svgOpts, fmt).value.children.list;
      && rounded.Ok?
      && (d < 0.0 ==> rounded.value == pattern.points)
      && forall k :: 0 <= k < |pattern.polys| ==>
           PathNode(pattern.polys[k], rounded.value, pattern.opts.settings, fmt).Ok?
           && children[k] == PathNode(pattern.polys[k], rounded.value, pattern.opts.settings, fmt).value
  {
  }

  /** With no SVG options the root carries the SVG namespace and the points
      are rounded to one decimal. */
  lemma ToSvgTreeDefaults(pattern: Pattern, fmt: Formatter)
    requires ToSvgTree(pattern, SvgOptions(None, None), fmt).Ok?
    ensures var root := ToSvgTree(pattern, SvgOptions(None, None), fmt).value;
      && AttrOf(root.attrs, "xmlns") == Str(SvgNamespace)
      && var rounded := RoundPoints(pattern.points, 1.0, fmt);
         && rounded.Ok?
         && forall i :: 0 <= i < |pattern.points| ==>
              rounded.value[i] == Point(fmt.toFixed(pattern.points[i].x, 1), fmt.toFixed(pattern.points[i].y, 1))
  {
    assert (1.0).Floor == 1;
  }

  /** The destination element plays no part outside a browser. */
  lemma ToSvgIgnoresDestination<D>(pattern: Pattern, d1: Option<D>, d2: Option<D>, svgOpts: SvgOptions, fmt: Formatter)
    ensures ToSvg(pattern, d1, svgOpts, fmt) == ToSvg(pattern, d2, svgOpts, fmt)
  {
  }

  /** Every polygon of a generated pattern names existing points: its
      vertices come from the triangulation, which is checked to be in range. */
  lemma GeneratedVerticesIn(u: UserOptions, defaultPalette: Palette, entropy: CodeUnits, colorEntropy: CodeUnits,
                            triangulate: seq<Point> -> seq<nat>)
    requires Generate(u, defaultPalette, entropy, colorEntropy, triangulate).Ok?
    ensures var p := Generate(u, defaultPalette, entropy, colorEntropy, triangulate).value;
      VerticesIn(p.polys, p.points)
  {
    var opts := Resolve(u, defaultPalette).value;
    var seed := opts.settings.seed;
    var a := InitialState(seed, entropy);
    var c := InitialState(ColorSeed(seed), colorEntropy);
    assert Generate(u, defaultPalette, entropy, colorEntropy, triangulate) == Build(opts, a, c, triangulate);
    BuiltVerticesIn(opts, a, c, triangulate);
  }

  /** `GeneratedVerticesIn` for given starting states. */
  lemma BuiltVerticesIn(opts: Options, rand: bv32, cRand: bv32, triangulate: seq<Point> -> seq<nat>)
    requires opts.settings.width > 0.0 && opts.settings.height > 0.0
    requires Build(opts, rand, cRand, triangulate).Ok?
    ensures var p := Build(opts, rand, cRand, triangulate).value;
      VerticesIn(p.polys, p.points)
  {
    var s := opts.settings;
    var p := Build(opts, rand, cRand, triangulate).value;
    var indices := triangulate(p.points);
    BuildPolysOf(opts, rand, cRand, triangulate);
    var colors := ResolveColors(s, rand).value;
    var scene := Scene(p.points, s, Scale(colors.x, s.colorSpace), Scale(colors.y, s.colorSpace));
    forall k, i | 0 <= k < |p.polys| && 0 <= i < |p.polys[k].vertexIndices|
      ensures p.polys[k].vertexIndices[i] < |p.points|
    {
      PolyAtIn(indices, k, scene, opts.colorFunction, cRand);
    }
  }

  /** A generated pattern always serialises with the default SVG options, to
      an `svg` root with one path per triangle. */
  lemma GeneratedPatternRenders<D>(u: UserOptions, defaultPalette: Palette, entropy: CodeUnits, colorEntropy: CodeUnits,
                                   triangulate: seq<Point> -> seq<nat>, dest: Option<D>, fmt: Formatter)
    requires Generate(u, defaultPalette, entropy, colorEntropy, triangulate).Ok?
    ensures var p := Generate(u, defaultPalette, entropy, colorEntropy, triangulate).value;
      var r := ToSvg(p, dest, SvgOptions(None, None), fmt);
      && r.Ok?
      && |r.value.children.list| == |triangulate(p.points)| / 3
  {
    var p := Generate(u, defaultPalette, entropy, colorEntropy, triangulate).value;
    GeneratedVerticesIn(u, defaultPalette, entropy, colorEntropy, triangulate);
    assert (1.0).Floor == 1;
    ToSvgTreeOk(p, SvgOptions(None, None), fmt);
  }
}
