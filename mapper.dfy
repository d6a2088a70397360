// The entity adapter (src/hooks/use-connector/mapper.ts): three catalog
// shapes mapped onto the one entity shape the diagram draws.

module Mapper {
  import opened Types

  /** An attribute or field definition; the adapter reads its name only. */
  datatype Attribute = Attribute(name: string)

  /** A stored custom-object schema. */
  datatype SchemaTypeResponse = SchemaTypeResponse(key: string, attributes: seq<Attribute>)

  /** A product type; its name may be missing. */
  datatype ProductTypeResponse = ProductTypeResponse(name: Option<string>, key: string, attributes: seq<Attribute>)

  /** A field-definition type. */
  datatype TypeResponse = TypeResponse(name: string, key: string, fieldDefinitions: seq<Attribute>)

  /** Which catalog an entity comes from. */
  datatype CatalogKind = CustomObject | CustomType | ProductType

  /** An item before it is styled: its name and whether it is the key. */
  datatype KeyedName = KeyedName(name: string, iskey: bool)

  /** The fixed location every entity is given: `new go.Point(1, 300)`. */
  const DefaultLocation := Point(1, 300)

  /** The attributes every product type inherits. */
  const ProductInheritedAttributes: seq<Item> := [
    Item("id", true, "Diamond", None),
    Item("name", false, "Rectangle", None),
    Item("description", false, "Rectangle", None)
  ]

  /** One colour per catalog. */
  function ColorOf(kind: CatalogKind): string {
    if kind == ProductType then "blue"
    else if kind == CustomType then "red"
    else "green"
  }

  /** The items an entity built from `attrs` with colour `color` must have:
      one per attribute, in order, the key flag set exactly on "id". */
  predicate ItemsFollow(items: seq<Item>, attrs: seq<Attribute>, color: string) {
    && |items| == |attrs|
    && forall j :: 0 <= j < |items| ==>
         && items[j].name == attrs[j].name
         && (items[j].iskey <==> attrs[j].name == "id")
         && items[j].figure == "Rectangle"
         && items[j].color == Some(color)
  }

  /** The `{name, iskey}` pairs of an attribute list. */
  function KeyedNames(attrs: seq<Attribute>): (r: seq<KeyedName>)
    ensures |r| == |attrs|
    ensures forall j :: 0 <= j < |r| ==> r[j].name == attrs[j].name && (r[j].iskey <==> attrs[j].name == "id")
  {
    seq(|attrs|, j requires 0 <= j < |attrs| => KeyedName(attrs[j].name, attrs[j].name == "id"))
  }

  /** `createGoEntity(key, name, items, type)`. The name is not used. */
  function CreateGoEntity(key: string, name: string, items: seq<KeyedName>, kind: CatalogKind): (e: Entity)
    ensures e.key == key && e.location == DefaultLocation
    ensures e.loc == None && e.position == None
    ensures |e.items| == |items|
    ensures forall j :: 0 <= j < |items| ==>
      e.items[j] == Item(items[j].name, items[j].iskey, "Rectangle", Some(ColorOf(kind)))
    ensures e.inheritedItems == if kind == ProductType then Some(ProductInheritedAttributes) else None
  {
    Entity(
      key,
      DefaultLocation,
      seq(|items|, j requires 0 <= j < |items| => Item(items[j].name, items[j].iskey, "Rectangle", Some(ColorOf(kind)))),
      if kind == ProductType then Some(ProductInheritedAttributes) else None,
      None,
      None)
  }

  /** `mapSchemaTypeToGoEntities`: one green entity per schema, keyed by the
      schema key. */
  function MapSchemaTypeToGoEntities(results: seq<SchemaTypeResponse>): (r: seq<Entity>)
    ensures |r| == |results|
    ensures forall i :: 0 <= i < |r| ==>
      && r[i].key == results[i].key
      && ItemsFollow(r[i].items, results[i].attributes, "green")
      && r[i].inheritedItems == None
      && r[i].location == DefaultLocation
      && r[i].loc == None && r[i].position == None
  {
    seq(|results|, i requires 0 <= i < |results| =>
      CreateGoEntity(results[i].key, results[i].key, KeyedNames(results[i].attributes), CustomObject))
  }

  /** `mapProductTypeToGoEntities`: one blue entity per product type, keyed by
      its name (its key when the name is missing), with the inherited items. */
  function MapProductTypeToGoEntities(results: seq<ProductTypeResponse>): (r: seq<Entity>)
    ensures |r| == |results|
    ensures forall i :: 0 <= i < |r| ==>
      && r[i].key == results[i].name.GetOr(results[i].key)
      && ItemsFollow(r[i].items, results[i].attributes, "blue")
      && r[i].inheritedItems == Some(ProductInheritedAttributes)
      && r[i].location == DefaultLocation
      && r[i].loc == None && r[i].position == None
  {
    seq(|results|, i requires 0 <= i < |results| =>
      CreateGoEntity(results[i].name.GetOr(results[i].key), results[i].key, KeyedNames(results[i].attributes), ProductType))
  }

  /** `mapTypeToGoEntities`: one red entity per type, keyed by the type key. */
  function MapTypeToGoEntities(results: seq<TypeResponse>): (r: seq<Entity>)
    ensures |r| == |results|
    ensures forall i :: 0 <= i < |r| ==>
      && r[i].key == results[i].key
      && ItemsFollow(r[i].items, results[i].fieldDefinitions, "red")
      && r[i].inheritedItems == None
      && r[i].location == DefaultLocation
      && r[i].loc == None && r[i].position == None
  {
    seq(|results|, i requires 0 <= i < |results| =>
      CreateGoEntity(results[i].key, results[i].name, KeyedNames(results[i].fieldDefinitions), CustomType))
  }

  /** The inherited product-type items: id, name, description, the key flag on
      id only. */
  lemma InheritedItemsShape()
    ensures |ProductInheritedAttributes| == 3
    ensures forall j :: 0 <= j < 3 ==> (ProductInheritedAttributes[j].iskey <==> ProductInheritedAttributes[j].name == "id")
    ensures [ProductInheritedAttributes[0].name, ProductInheritedAttributes[1].name, ProductInheritedAttributes[2].name]
         == ["id", "name", "description"]
  {
  }

  /** The colour tells the catalogs apart: distinct kinds get distinct colours. */
  lemma ColorsDistinguishKinds(a: CatalogKind, b: CatalogKind)
    ensures ColorOf(a) == ColorOf(b) <==> a == b
  {
  }

  /** The result does not depend on the `name` argument. */
  lemma NameUnused(key: string, n1: string, n2: string, items: seq<KeyedName>, kind: CatalogKind)
    ensures CreateGoEntity(key, n1, items, kind) == CreateGoEntity(key, n2, items, kind)
  {
  }
}
