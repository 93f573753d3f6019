/** Validating the managed catalog files: nested loops over files and products collect issues, the codes
    seen so far and a bucket per category. */
module CatalogValidation {
  import opened Text

  /** A decoded JSON member; Other prints as it would in a message and is truthy or not. */
  datatype Field = Missing | Text(s: string) | Other(printed: string, truthy: bool)

  function Printed(f: Field): string {
    match f
    case Missing => "None"
    case Text(s) => s
    case Other(printed, _) => printed
  }

  predicate Truthy(f: Field) {
    match f
    case Missing => false
    case Text(s) => s != ""
    case Other(_, truthy) => truthy
  }

  datatype Inventory = Whole(n: int) | NotWhole(printed: string)

  datatype Attributes = NotAnObject | Object(values: map<string, Field>)

  /** money is the positive finite amount, if the value has one; amount is the value as it would be printed. */
  datatype Sku = Sku(code: Field, status: Field, money: Option<real>, amount: string, currency: Field, inventory: Inventory)
  datatype Product = Product(code: Field, legacy: Field, status: Field, attributes: Attributes, sku: Sku)

  datatype Content =
    | Unreadable(error: string)
    | Seed(category: Field, definitions: seq<string>, products: seq<Product>)

  datatype SeedFile = SeedFile(path: string, content: Content)

  datatype CodeKind = ProductCode | LegacyId | SkuCode

  datatype IssueCode =
    | SeedInvalidJson | DuplicateCategory | UnsupportedCategory
    | UnknownAttributeDefinition | AttributeDefinitionMissing
    | CodeMissing(kind: CodeKind) | DuplicateCode(kind: CodeKind)
    | InvalidProductStatus | ProductAttributesInvalid
    | UnknownAttribute | RequiredAttributeMissing | AttributeTypeInvalid
    | InvalidSkuStatus | MoneyInvalid | CurrencyInvalid | InventoryInvalid
    | DocumentMissing | DocumentIdentityMismatch

  datatype Issue = Issue(code: IssueCode, path: string, detail: string)

  datatype Attribute = Attribute(key: string, required: bool)

  /** What the validator is given: the category definitions, how a value of an attribute is rejected, the
      order in which key sets are listed, the path of an id's document, and its name if it is there. */
  datatype Registry = Registry(
    definitions: map<string, seq<Attribute>>,
    reject: (string, string, Field) -> Option<string>,
    listed: set<string> -> seq<string>,
    documentPath: string -> string,
    document: string -> Option<string>
  )

  datatype Bucket = Bucket(
    products: nat, skus: nat, attributes: nat, docs: nat, inStock: nat, outOfStock: nat, prices: seq<real>
  )

  datatype State = State(
    issues: seq<Issue>, categoryCodes: set<Field>,
    productCodes: map<string, string>, legacyIds: map<string, string>, skuCodes: map<string, string>,
    categories: map<string, Bucket>
  )

  const START := State([], {}, map[], map[], map[], map[])

  // ---------- one product ----------

  const VALID_STATUS := {"draft", "active", "inactive"}

  predicate ValidStatus(f: Field) {
    f.Text? && f.s in VALID_STATUS
  }

  predicate ValidCurrency(f: Field) {
    f.Text? && |f.s| == 3 && forall i | 0 <= i < 3 :: 'A' <= f.s[i] <= 'Z'
  }

  predicate HasCode(f: Field) {
    f.Text? && !IsBlank(f.s)
  }

  function When(bad: bool, code: IssueCode, path: string, detail: string): seq<Issue> {
    if bad then [Issue(code, path, detail)] else []
  }

  function MissingText(kind: CodeKind): string {
    match kind
    case ProductCode => "product_code is required"
    case LegacyId => "legacy_product_id is required"
    case SkuCode => "sku_code is required"
  }

  function MissingCode(f: Field, kind: CodeKind, path: string): seq<Issue> {
    When(!HasCode(f), CodeMissing(kind), path, MissingText(kind))
  }

  function RepeatedCode(f: Field, kind: CodeKind, known: map<string, string>, path: string): seq<Issue> {
    When(HasCode(f) && f.s in known, DuplicateCode(kind), path, Printed(f))
  }

  function CodeIssues(f: Field, kind: CodeKind, known: map<string, string>, path: string): seq<Issue> {
    MissingCode(f, kind, path) + RepeatedCode(f, kind, known, path)
  }

  function Remember(f: Field, known: map<string, string>, path: string): map<string, string> {
    if HasCode(f) && f.s !in known then known[f.s := path] else known
  }

  /** validate_catalog_attributes: undeclared keys, then each declared one. */
  function UndeclaredIssues(keys: seq<string>, declared: set<string>, category: string, path: string): seq<Issue> {
    if keys == [] then []
    else
      UndeclaredIssues(keys[..|keys| - 1], declared, category, path)
      + When(keys[|keys| - 1] !in declared, UnknownAttribute, path + "." + keys[|keys| - 1], category)
  }

  function AttributeIssue(r: Registry, category: string, a: Attribute, values: map<string, Field>, path: string): seq<Issue> {
    if a.key !in values then When(a.required, RequiredAttributeMissing, path + "." + a.key, category)
    else
      var rejected := r.reject(category, a.key, values[a.key]);
      When(rejected.Some?, AttributeTypeInvalid, path + "." + a.key, rejected.GetOr(""))
  }

  function DeclaredIssues(r: Registry, category: string, declared: seq<Attribute>, values: map<string, Field>, path: string)
    : seq<Issue>
  {
    if declared == [] then []
    else
      DeclaredIssues(r, category, declared[..|declared| - 1], values, path)
      + AttributeIssue(r, category, declared[|declared| - 1], values, path)
  }

  function KeysOf(declared: seq<Attribute>): set<string> {
    set i | 0 <= i < |declared| :: declared[i].key
  }

  function Values(a: Attributes): map<string, Field> {
    if a.Object? then a.values else map[]
  }

  function ValueIssues(r: Registry, category: string, a: Attributes, path: string): seq<Issue> {
    if category !in r.definitions then []
    else
      var declared := r.definitions[category];
      UndeclaredIssues(r.listed(Values(a).Keys), KeysOf(declared), category, path)
      + DeclaredIssues(r, category, declared, Values(a), path)
  }

  function DocumentIssues(r: Registry, legacy: Field): seq<Issue> {
    if !Truthy(legacy) then []
    else
      match r.document(Printed(legacy))
      case None => [Issue(DocumentMissing, r.documentPath(Printed(legacy)), Printed(legacy))]
      case Some(stem) =>
        When(!legacy.Text? || stem != legacy.s, DocumentIdentityMismatch, r.documentPath(Printed(legacy)), Printed(legacy))
  }

  function PrintedStock(i: Inventory): string {
    match i
    case Whole(n) => if n < 0 then "-" + Decimal(-n) else Decimal(n)
    case NotWhole(printed) => printed
  }

  /** Between the legacy id and the SKU code. */
  function ProductIssues(r: Registry, category: string, p: Product, path: string): seq<Issue> {
    When(!ValidStatus(p.status), InvalidProductStatus, path, Printed(p.status))
    + When(p.attributes.NotAnObject?, ProductAttributesInvalid, path, "attributes must be an object")
    + ValueIssues(r, category, p.attributes, path + ":attributes")
  }

  /** After the SKU code. */
  function SkuIssues(r: Registry, p: Product, path: string): seq<Issue> {
    var sku := p.sku;
    When(!ValidStatus(sku.status), InvalidSkuStatus, path, Printed(sku.status))
    + When(sku.money.None?, MoneyInvalid, path + ":money_amount", sku.amount)
    + When(!ValidCurrency(sku.currency), CurrencyInvalid, path + ":currency", Printed(sku.currency))
    + When(!sku.inventory.Whole? || sku.inventory.n < 0, InventoryInvalid, path + ":inventory", PrintedStock(sku.inventory))
    + DocumentIssues(r, p.legacy)
  }

  predicate InStock(p: Product) { p.sku.inventory.Whole? && p.sku.inventory.n > 0 }
  predicate OutOfStock(p: Product) { p.sku.inventory == Whole(0) }
  predicate Documented(r: Registry, p: Product) { Truthy(p.legacy) && r.document(Printed(p.legacy)).Some? }

  function One(b: bool): nat { if b then 1 else 0 }

  function Visited(b: Bucket, r: Registry, p: Product): Bucket {
    b.(products := b.products + 1, skus := b.skus + 1, docs := b.docs + One(Documented(r, p)),
       inStock := b.inStock + One(InStock(p)), outOfStock := b.outOfStock + One(OutOfStock(p)),
       prices := b.prices + PriceOf(p))
  }

  function PriceOf(p: Product): seq<real> {
    if p.sku.money.Some? then [p.sku.money.value] else []
  }

  function ProductPath(file: string, index: nat): string {
    file + ":products[" + Decimal(index) + "]"
  }

  function IssuesOfVisit(st: State, r: Registry, category: string, p: Product, path: string): seq<Issue> {
    CodeIssues(p.code, ProductCode, st.productCodes, path) + CodeIssues(p.legacy, LegacyId, st.legacyIds, path)
    + ProductIssues(r, category, p, path)
    + CodeIssues(p.sku.code, SkuCode, st.skuCodes, path + ":sku") + SkuIssues(r, p, path + ":sku")
  }

  function VisitProduct(st: State, r: Registry, file: string, category: string, index: nat, p: Product): State
    requires category in st.categories
  {
    var path := ProductPath(file, index);
    State(st.issues + IssuesOfVisit(st, r, category, p, path), st.categoryCodes,
          Remember(p.code, st.productCodes, file), Remember(p.legacy, st.legacyIds, file),
          Remember(p.sku.code, st.skuCodes, file),
          st.categories[category := Visited(st.categories[category], r, p)])
  }

  function VisitProducts(st: State, r: Registry, file: string, category: string, products: seq<Product>): (after: State)
    requires category in st.categories
    ensures category in after.categories
  {
    if products == [] then st
    else
      var n := |products| - 1;
      VisitProduct(VisitProducts(st, r, file, category, products[..n]), r, file, category, n, products[n])
  }

  // ---------- one file ----------

  function KeyIssues(keys: seq<string>, code: IssueCode, path: string, category: string): seq<Issue> {
    if keys == [] then []
    else
      KeyIssues(keys[..|keys| - 1], code, path, category) + [Issue(code, path + "." + keys[|keys| - 1], category)]
  }

  function SetOf<T>(s: seq<T>): set<T> { set x | x in s }

  function DefinitionIssues(r: Registry, path: string, category: string, definitions: seq<string>): seq<Issue> {
    if category !in r.definitions then []
    else
      var expected, supplied := KeysOf(r.definitions[category]), SetOf(definitions);
      KeyIssues(r.listed(supplied - expected), UnknownAttributeDefinition, path + ":attribute_definitions", category)
      + KeyIssues(r.listed(expected - supplied), AttributeDefinitionMissing, path + ":attribute_definitions", category)
  }

  function OpenFile(st: State, r: Registry, path: string, category: Field, definitions: seq<string>): (after: State)
    ensures Printed(category) in after.categories
  {
    var name := Printed(category);
    st.(issues := st.issues
          + When(category in st.categoryCodes, DuplicateCategory, path + ":category.code", name)
          + When(name !in r.definitions, UnsupportedCategory, path + ":category.code", name)
          + DefinitionIssues(r, path, name, definitions),
        categoryCodes := st.categoryCodes + if Truthy(category) then {category} else {},
        categories := if name in st.categories then st.categories
                      else st.categories[name := Bucket(0, 0, |definitions|, 0, 0, 0, [])])
  }

  function VisitFile(st: State, r: Registry, file: SeedFile): State {
    match file.content
    case Unreadable(error) => st.(issues := st.issues + [Issue(SeedInvalidJson, file.path, error)])
    case Seed(category, definitions, products) =>
      VisitProducts(OpenFile(st, r, file.path, category, definitions), r, file.path, Printed(category), products)
  }

  function Visit(r: Registry, files: seq<SeedFile>): State {
    if files == [] then START else VisitFile(Visit(r, files[..|files| - 1]), r, files[|files| - 1])
  }

  // ---------- the validator ----------

  /** The lowest and the highest price of a category, if any of its SKUs has one. */
  datatype Range = NoPrice | Range(low: real, high: real)

  function RangeOf(prices: seq<real>): Range {
    if prices == [] then NoPrice
    else
      var last := prices[|prices| - 1];
      match RangeOf(prices[..|prices| - 1])
      case NoPrice => Range(last, last)
      case Range(low, high) => Range(if last < low then last else low, if last > high then last else high)
  }

  datatype Report = Report(
    valid: bool, categories: nat, products: nat, skus: nat, issues: seq<Issue>, buckets: map<string, Bucket>,
    ranges: map<string, Range>
  )

  function ReportOf(st: State): Report {
    Report(st.issues == [], |st.categories|, |st.productCodes|, |st.skuCodes|, st.issues, st.categories,
           map category | category in st.categories :: RangeOf(st.categories[category].prices))
  }

  /** One of the three code checks. */
  method CheckCode(f: Field, kind: CodeKind, known: map<string, string>, file: string, path: string)
    returns (found: seq<Issue>, seen: map<string, string>)
    ensures found == CodeIssues(f, kind, known, path)
    ensures seen == Remember(f, known, file)
    ensures if found == [] then HasCode(f) && f.s !in known && seen == known[f.s := file] else seen == known
  {
    found, seen := [], known;
    if !f.Text? || IsBlank(f.s) {
      found := [Issue(CodeMissing(kind), path, MissingText(kind))];
    } else if f.s in known {
      found := [Issue(DuplicateCode(kind), path, f.s)];
    } else {
      seen := seen[f.s := file];
    }
  }

  /** The stock, price and document members of a category's bucket. */
  method CountProduct(bucket: Bucket, r: Registry, p: Product) returns (counted: Bucket)
    ensures counted == Visited(bucket, r, p)
  {
    counted := bucket.(products := bucket.products + 1, skus := bucket.skus + 1);
    assert counted.prices + [] == counted.prices;
    if p.sku.inventory.Whole? && p.sku.inventory.n >= 0 {
      if p.sku.inventory.n > 0 {
        counted := counted.(inStock := counted.inStock + 1);
      } else {
        counted := counted.(outOfStock := counted.outOfStock + 1);
      }
    }
    if p.sku.money.Some? {
      counted := counted.(prices := counted.prices + [p.sku.money.value]);
    }
    if Truthy(p.legacy) && r.document(Printed(p.legacy)).Some? {
      counted := counted.(docs := counted.docs + 1);
    }
  }

  method CheckProduct(st: State, r: Registry, file: string, category: string, index: nat, p: Product) returns (after: State)
    requires category in st.categories
    ensures after == VisitProduct(st, r, file, category, index, p)
  {
    var path := ProductPath(file, index);
    var productFound, productCodes := CheckCode(p.code, ProductCode, st.productCodes, file, path);
    var legacyFound, legacyIds := CheckCode(p.legacy, LegacyId, st.legacyIds, file, path);
    var skuFound, skuCodes := CheckCode(p.sku.code, SkuCode, st.skuCodes, file, path + ":sku");
    var bucket := CountProduct(st.categories[category], r, p);
    var found := productFound + legacyFound + ProductIssues(r, category, p, path) + skuFound + SkuIssues(r, p, path + ":sku");
    after := State(st.issues + found, st.categoryCodes, productCodes, legacyIds, skuCodes, st.categories[category := bucket]);
  }

  method CheckProducts(begun: State, r: Registry, file: string, category: string, products: seq<Product>) returns (st: State)
    requires category in begun.categories
    ensures st == VisitProducts(begun, r, file, category, products)
  {
    st := begun;
    for j := 0 to |products|
      invariant category in st.categories
      invariant st == VisitProducts(begun, r, file, category, products[..j])
    {
      st := CheckProduct(st, r, file, category, j, products[j]);
      assert products[..j + 1][..j] == products[..j];
    }
    assert products[..|products|] == products;
  }

  method ValidateCatalogFiles(r: Registry, files: seq<SeedFile>) returns (report: Report)
    ensures report == ReportOf(Visit(r, files))
  {
    var st := START;
    for i := 0 to |files|
      invariant st == Visit(r, files[..i])
    {
      var file := files[i];
      match file.content {
        case Unreadable(error) =>
          st := st.(issues := st.issues + [Issue(SeedInvalidJson, file.path, error)]);
        case Seed(category, definitions, products) =>
          st := OpenFile(st, r, file.path, category, definitions);
          st := CheckProducts(st, r, file.path, Printed(category), products);
      }
      assert files[..i + 1][..i] == files[..i];
    }
    assert files[..|files|] == files;
    report := ReportOf(st);
  }
}
