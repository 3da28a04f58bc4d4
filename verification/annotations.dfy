/**
 * The ground-truth loader of the Java evaluation (DatasetHelper): a CVAT-style
 * annotation document is read into a map from image file name to plate text.
 * The parsed XML is an element tree; parsing itself is a parameter (a
 * document, or the failure that the loader swallows).
 */
module Annotations {
  import opened Wrappers
  import opened PlateText

  /** A DOM node: an element with its attributes and children, or text. */
  datatype Node =
    | Element(tag: string, attributes: map<string, string>, children: seq<Node>)
    | Text(text: string)

  /** The document element of a parsed file. */
  type ElementNode = n: Node | n.Element? witness Element("", map[], [])

  /** The outcome of `DocumentBuilder.parse`: a document, or any exception
      (missing file, malformed XML), which the loader catches. */
  datatype Document = Unparsable | Parsed(root: ElementNode)

  /** `getElementsByTagName(tag)` over a forest: every element below (and
      including) the given nodes whose tag matches, in document order. */
  function ByTag(nodes: seq<Node>, tag: string): (r: seq<Node>)
    ensures forall i :: 0 <= i < |r| ==> r[i].Element? && r[i].tag == tag
    decreases nodes
  {
    if nodes == [] then []
    else
      var head := nodes[0];
      var here := if head.Element? then
        (if head.tag == tag then [head] else []) + ByTag(head.children, tag)
      else [];
      here + ByTag(nodes[1..], tag)
  }

  /** The search keeps document order: a forest's matches are those of its
      first part followed by those of the rest. */
  lemma {:induction false} ByTagAppend(xs: seq<Node>, ys: seq<Node>, tag: string)
    ensures ByTag(xs + ys, tag) == ByTag(xs, tag) + ByTag(ys, tag)
  {
    if xs == [] {
      assert xs + ys == ys;
    } else {
      assert (xs + ys)[0] == xs[0];
      assert (xs + ys)[1..] == xs[1..] + ys;
      ByTagAppend(xs[1..], ys, tag);
    }
  }

  /** `x` is one of `nodes` or lies inside one of them, at any depth. */
  predicate InForest(x: Node, nodes: seq<Node>)
    decreases nodes
  {
    && nodes != []
    && (|| x == nodes[0]
        || (nodes[0].Element? && InForest(x, nodes[0].children))
        || InForest(x, nodes[1..]))
  }

  /** The search finds every element with the tag at any depth, and nothing
      else. */
  lemma {:induction false} ByTagComplete(nodes: seq<Node>, tag: string, x: Node)
    ensures x in ByTag(nodes, tag) <==> x.Element? && x.tag == tag && InForest(x, nodes)
    decreases nodes
  {
    if nodes != [] {
      var head := nodes[0];
      if head.Element? {
        ByTagComplete(head.children, tag, x);
      }
      ByTagComplete(nodes[1..], tag, x);
    }
  }

  /** An element's descendants with the given tag (the element itself excluded). */
  function ElementsByTag(e: Node, tag: string): (r: seq<Node>)
    requires e.Element?
    ensures forall i :: 0 <= i < |r| ==> r[i].Element? && r[i].tag == tag
  {
    ByTag(e.children, tag)
  }

  /** `Element.getAttribute`: the value, or "" when the attribute is absent. */
  function Attribute(e: Node, name: string): string
    requires e.Element?
  {
    if name in e.attributes then e.attributes[name] else ""
  }

  /** `getTextContent`: the text of every descendant text node, in order. */
  function TextContent(n: Node): string
    decreases n, 1
  {
    match n
    case Text(t) => t
    case Element(_, _, children) => TextOfAll(children)
  }

  function TextOfAll(nodes: seq<Node>): string
    decreases nodes, 0
  {
    if nodes == [] then "" else TextContent(nodes[0]) + TextOfAll(nodes[1..])
  }

  /** The plate text of a box: the trimmed text of the first "attribute"
      element whose name is "plate number", or "" when there is none. */
  function PlateNumber(attributes: seq<Node>): (p: string)
    requires forall i :: 0 <= i < |attributes| ==> attributes[i].Element?
  {
    if attributes == [] then ""
    else if Attribute(attributes[0], "name") == "plate number" then Trim(JavaTrim, TextContent(attributes[0]))
    else PlateNumber(attributes[1..])
  }

  /** What one "image" element contributes: its name attribute and the plate
      number of its first box, when it has a box and the plate is not blank. */
  function ImageEntry(image: Node): (r: Option<(string, string)>)
    requires image.Element?
  {
    var boxes := ElementsByTag(image, "box");
    if |boxes| == 0 then None
    else
      var plate := PlateNumber(ElementsByTag(boxes[0], "attribute"));
      if plate == "" then None else Some((Attribute(image, "name"), plate))
  }

  /** The image does contribute an entry for file name `name`. */
  predicate EntryFor(image: Node, name: string) {
    image.Element? && ImageEntry(image).Some? && ImageEntry(image).value.0 == name
  }

  /** The map after the loop has stored the entries of `images` in order. */
  function Store(images: seq<Node>): map<string, string>
    requires forall i :: 0 <= i < |images| ==> images[i].Element?
  {
    if images == [] then map[]
    else
      var m := Store(images[..|images| - 1]);
      match ImageEntry(images[|images| - 1])
      case None => m
      case Some(entry) => m[entry.0 := entry.1]
  }

  /** `DatasetHelper.loadGroundTruthMap`. */
  function LoadGroundTruthMap(doc: Document): (m: map<string, string>)
    ensures doc.Unparsable? ==> m == map[]
  {
    match doc
    case Unparsable => map[]
    case Parsed(root) => Store(Images(root))
  }

  /** `Document.getElementsByTagName("image")`: the search includes the
      document element itself. */
  function Images(root: ElementNode): (r: seq<Node>)
    ensures forall i :: 0 <= i < |r| ==> r[i].Element? && r[i].tag == "image"
  {
    ByTag([root], "image")
  }

  /** Every "image" element of the document is visited, the document
      element included, and nothing else is. */
  lemma ImagesComplete(root: ElementNode, x: Node)
    ensures x in Images(root) <==>
      x.Element? && x.tag == "image" && (x == root || InForest(x, root.children))
  {
    ByTagComplete([root], "image", x);
    assert [root][1..] == [];
  }

  /** A stored plate is never blank and carries no surrounding whitespace. */
  lemma ImageEntryIsTrimmedPlate(image: Node)
    requires image.Element?
    ensures ElementsByTag(image, "box") == [] ==> ImageEntry(image) == None
    ensures ImageEntry(image).Some? ==>
      && ImageEntry(image).value.0 == Attribute(image, "name")
      && ImageEntry(image).value.1 != ""
      && Trim(JavaTrim, ImageEntry(image).value.1) == ImageEntry(image).value.1
  {
    var boxes := ElementsByTag(image, "box");
    if |boxes| > 0 {
      PlateNumberIsTrimmed(ElementsByTag(boxes[0], "attribute"));
    }
  }

  lemma {:induction false} PlateNumberIsTrimmed(attributes: seq<Node>)
    requires forall i :: 0 <= i < |attributes| ==> attributes[i].Element?
    ensures Trim(JavaTrim, PlateNumber(attributes)) == PlateNumber(attributes)
  {
    if attributes != [] {
      if Attribute(attributes[0], "name") == "plate number" {
        TrimIdempotent(JavaTrim, TextContent(attributes[0]));
      } else {
        PlateNumberIsTrimmed(attributes[1..]);
      }
    }
  }

  /** The plate number comes from the first "plate number" attribute; later
      ones are ignored, and without one it is "". */
  lemma {:induction false} PlateNumberIsFirstMatch(attributes: seq<Node>)
    requires forall i :: 0 <= i < |attributes| ==> attributes[i].Element?
    ensures (forall i :: 0 <= i < |attributes| ==> Attribute(attributes[i], "name") != "plate number")
      ==> PlateNumber(attributes) == ""
    ensures forall k ::
        (&& 0 <= k < |attributes|
         && Attribute(attributes[k], "name") == "plate number"
         && (forall i :: 0 <= i < k ==> Attribute(attributes[i], "name") != "plate number"))
        ==> PlateNumber(attributes) == Trim(JavaTrim, TextContent(attributes[k]))
  {
    if attributes != [] && Attribute(attributes[0], "name") != "plate number" {
      PlateNumberIsFirstMatch(attributes[1..]);
      assert forall i :: 1 <= i < |attributes| ==> attributes[i] == attributes[1..][i - 1];
    }
  }

  /** Every value of the map is a non-blank, trimmed plate text. */
  lemma {:induction false} StoredValuesAreTrimmed(images: seq<Node>)
    requires forall i :: 0 <= i < |images| ==> images[i].Element?
    ensures forall k :: k in Store(images) ==>
      Store(images)[k] != "" && Trim(JavaTrim, Store(images)[k]) == Store(images)[k]
  {
    if images != [] {
      StoredValuesAreTrimmed(images[..|images| - 1]);
      ImageEntryIsTrimmedPlate(images[|images| - 1]);
    }
  }

  /** One more image changes the entry for `name` only when it names it. */
  lemma StoreStep(images: seq<Node>, name: string)
    requires images != []
    requires forall i :: 0 <= i < |images| ==> images[i].Element?
    ensures var last := images[|images| - 1];
      var m := Store(images);
      var m0 := Store(images[..|images| - 1]);
      && (EntryFor(last, name) ==> name in m && ImageEntry(last) == Some((name, m[name])))
      && (!EntryFor(last, name) ==> (name in m <==> name in m0) && (name in m ==> m[name] == m0[name]))
  {
  }

  /** A file name is a key exactly when some image with that name contributes
      an entry. */
  lemma {:induction false} StoreKeys(images: seq<Node>, name: string)
    requires forall i :: 0 <= i < |images| ==> images[i].Element?
    ensures name in Store(images) <==> exists i :: 0 <= i < |images| && EntryFor(images[i], name)
  {
    if images != [] {
      var n := |images| - 1;
      var init := images[..n];
      StoreKeys(init, name);
      StoreStep(images, name);
      assert forall i :: 0 <= i < n ==> images[i] == init[i];
    }
  }

  /** The value stored under a file name is the plate of the LAST image
      naming it: `last` is that image's index. */
  lemma {:induction false} StoreLastWins(images: seq<Node>, name: string) returns (last: nat)
    requires forall i :: 0 <= i < |images| ==> images[i].Element?
    requires name in Store(images)
    ensures last < |images|
    ensures ImageEntry(images[last]) == Some((name, Store(images)[name]))
    ensures forall j :: last < j < |images| ==> !EntryFor(images[j], name)
  {
    var n := |images| - 1;
    var init := images[..n];
    StoreStep(images, name);
    if EntryFor(images[n], name) {
      last := n;
    } else {
      last := StoreLastWins(init, name);
      assert images[last] == init[last];
      assert forall j :: last < j < n ==> images[j] == init[j];
    }
  }

  /** The loader's result: nothing on a parse failure; otherwise only
      non-blank, trimmed plates, keyed by the last image naming them. */
  lemma LoadedMapShape(doc: Document, name: string)
    requires doc.Parsed?
    ensures var m := LoadGroundTruthMap(doc);
      var images := Images(doc.root);
      && (name in m <==> exists i :: 0 <= i < |images| && EntryFor(images[i], name))
      && (name in m ==> m[name] != "" && Trim(JavaTrim, m[name]) == m[name])
  {
    var images := Images(doc.root);
    StoreKeys(images, name);
    StoredValuesAreTrimmed(images);
  }

  /** An image without a name attribute is stored under the empty file name. */
  lemma NamelessImageIsStoredUnderEmptyName(plate: string)
    requires plate != "" && Trim(JavaTrim, plate) == plate
    ensures var attribute := Element("attribute", map["name" := "plate number"], [Text(plate)]);
      var image := Element("image", map[], [Element("box", map[], [attribute])]);
      Store([image]) == map["" := plate]
  {
    var attribute := Element("attribute", map["name" := "plate number"], [Text(plate)]);
    var box := Element("box", map[], [attribute]);
    var image := Element("image", map[], [box]);
    assert ByTag([attribute], "box") == [];
    assert ByTag([box], "box") == [box];
    assert ByTag([Text(plate)], "attribute") == [];
    assert ByTag([attribute], "attribute") == [attribute] + ByTag([Text(plate)], "attribute") + ByTag([], "attribute");
    assert TextOfAll([Text(plate)]) == plate;
    assert ImageEntry(image) == Some(("", plate));
    assert [image][..0] == [];
  }
}
