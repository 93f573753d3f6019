/** The validator's counts add up, and how far they and the verdict depend on the order of the files. */
module ValidationOrder {
  import opened Sequences
  import opened Text
  import opened CatalogValidation
  import opened ValidationLaws
  import opened ValidationGuarantees

  // ---------- which issues a product can have ----------

  predicate Free(issues: seq<Issue>, code: IssueCode) {
    forall i | i in issues :: i.code != code
  }

  lemma {:induction false} FreeCount(issues: seq<Issue>, code: IssueCode)
    requires Free(issues, code)
    ensures Count(issues, code) == 0
  {
    if issues != [] {
      FreeCount(issues[..|issues| - 1], code);
    }
  }

  lemma {:induction false} FreeOfUndeclared(keys: seq<string>, declared: set<string>, category: string, path: string, code: IssueCode)
    requires !code.UnknownAttribute?
    ensures Free(UndeclaredIssues(keys, declared, category, path), code)
  {
    if keys != [] {
      FreeOfUndeclared(keys[..|keys| - 1], declared, category, path, code);
    }
  }

  lemma {:induction false} FreeOfDeclared(
    r: Registry, category: string, declared: seq<Attribute>, values: map<string, Field>, path: string, code: IssueCode
  )
    requires !code.RequiredAttributeMissing? && !code.AttributeTypeInvalid?
    ensures Free(DeclaredIssues(r, category, declared, values, path), code)
  {
    if declared != [] {
      FreeOfDeclared(r, category, declared[..|declared| - 1], values, path, code);
    }
  }

  lemma {:induction false} FreeOfKeys(keys: seq<string>, found: IssueCode, path: string, category: string, code: IssueCode)
    requires code != found
    ensures Free(KeyIssues(keys, found, path, category), code)
  {
    if keys != [] {
      FreeOfKeys(keys[..|keys| - 1], found, path, category, code);
    }
  }

  /** Issues about codes, missing or repeated, and about stock. */
  predicate Counted(code: IssueCode) {
    code.CodeMissing? || code.DuplicateCode? || code.InventoryInvalid?
  }

  lemma FreeProductIssues(r: Registry, category: string, p: Product, path: string, code: IssueCode)
    requires Counted(code)
    ensures Free(ProductIssues(r, category, p, path), code)
  {
    if category in r.definitions {
      var declared := r.definitions[category];
      var values := Values(p.attributes);
      FreeOfUndeclared(r.listed(values.Keys), KeysOf(declared), category, path + ":attributes", code);
      FreeOfDeclared(r, category, declared, values, path + ":attributes", code);
    }
  }

  lemma FreeDefinitionIssues(r: Registry, path: string, category: string, definitions: seq<string>, code: IssueCode)
    requires Counted(code)
    ensures Free(DefinitionIssues(r, path, category, definitions), code)
  {
    if category in r.definitions {
      var expected, supplied := KeysOf(r.definitions[category]), SetOf(definitions);
      FreeOfKeys(r.listed(supplied - expected), UnknownAttributeDefinition, path + ":attribute_definitions", category, code);
      FreeOfKeys(r.listed(expected - supplied), AttributeDefinitionMissing, path + ":attribute_definitions", category, code);
    }
  }

  predicate NoStock(p: Product) {
    !InStock(p) && !OutOfStock(p)
  }

  /** How often a product on its own gives rise to one of these issues. */
  function Faults(code: IssueCode): Product -> nat {
    (p: Product) =>
      match code
      case CodeMissing(kind) => One(!HasCode(FieldOf(p, kind)))
      case InventoryInvalid => One(NoStock(p))
      case _ => 0
  }

  /** The counts of five parts add up. */
  lemma {:induction false} CountsOfFive(
    a: seq<Issue>, b: seq<Issue>, c: seq<Issue>, d: seq<Issue>, e: seq<Issue>, code: IssueCode, na: nat, nb: nat, nd: nat, ne: nat
  )
    requires Count(a, code) == na && Count(b, code) == nb && Count(c, code) == 0 && Count(d, code) == nd && Count(e, code) == ne
    ensures Count(a + b + c + d + e, code) == na + nb + nd + ne
  {
    CountFive(a, b, c, d, e, code);
  }

  lemma {:induction false} CountSkuIssues(r: Registry, p: Product, path: string, code: IssueCode)
    requires Counted(code)
    ensures Count(SkuIssues(r, p, path), code) == if code.InventoryInvalid? && NoStock(p) then 1 else 0
  {
    var sku := p.sku;
    var status := When(!ValidStatus(sku.status), InvalidSkuStatus, path, Printed(sku.status));
    var money := When(sku.money.None?, MoneyInvalid, path + ":money_amount", sku.amount);
    var currency := When(!ValidCurrency(sku.currency), CurrencyInvalid, path + ":currency", Printed(sku.currency));
    var bad := !sku.inventory.Whole? || sku.inventory.n < 0;
    var stock := When(bad, InventoryInvalid, path + ":inventory", PrintedStock(sku.inventory));
    FreeCount(status, code);
    FreeCount(money, code);
    FreeCount(currency, code);
    FreeCount(DocumentIssues(r, p.legacy), code);
    CountWhen(bad, InventoryInvalid, path + ":inventory", PrintedStock(sku.inventory), code);
    CountsOfFive(status, money, currency, stock, DocumentIssues(r, p.legacy), code, 0, 0,
                 if code.InventoryInvalid? && NoStock(p) then 1 else 0, 0);
  }

  function MissingCount(f: Field, kind: CodeKind, code: IssueCode): nat {
    if code == CodeMissing(kind) && !HasCode(f) then 1 else 0
  }

  lemma FaultsAre(p: Product, code: IssueCode)
    requires Counted(code)
    ensures Faults(code)(p) == MissingCount(p.code, ProductCode, code) + MissingCount(p.legacy, LegacyId, code)
                               + MissingCount(p.sku.code, SkuCode, code) + if code.InventoryInvalid? && NoStock(p) then 1 else 0
  {
  }

  lemma {:induction false} CountOwnProduct(r: Registry, category: string, p: Product, path: string, code: IssueCode)
    requires Counted(code)
    ensures Count(OwnProductIssues(r, category, p, path), code) == Faults(code)(p)
  {
    var about, skus := ProductIssues(r, category, p, path), SkuIssues(r, p, path + ":sku");
    FreeProductIssues(r, category, p, path, code);
    FreeCount(about, code);
    CountSkuIssues(r, p, path + ":sku", code);
    CountsOfFive(MissingCode(p.code, ProductCode, path), MissingCode(p.legacy, LegacyId, path), about,
                 MissingCode(p.sku.code, SkuCode, path + ":sku"), skus, code,
                 MissingCount(p.code, ProductCode, code), MissingCount(p.legacy, LegacyId, code),
                 MissingCount(p.sku.code, SkuCode, code), if code.InventoryInvalid? && NoStock(p) then 1 else 0);
    FaultsAre(p, code);
  }

  lemma {:induction false} CountOwnProducts(r: Registry, file: string, category: string, products: seq<Product>, code: IssueCode)
    requires Counted(code)
    ensures Count(OwnProductsIssues(r, file, category, products), code) == Sum(products, Faults(code))
  {
    if products != [] {
      var n := |products| - 1;
      CountOwnProducts(r, file, category, products[..n], code);
      CountOwnProduct(r, category, products[n], ProductPath(file, n), code);
      CountConcat(OwnProductsIssues(r, file, category, products[..n]),
                  OwnProductIssues(r, category, products[n], ProductPath(file, n)), code);
    }
  }

  lemma {:induction false} CountOwn(r: Registry, file: SeedFile, code: IssueCode)
    requires Counted(code)
    ensures Count(OwnIssues(r, file), code) == Sum(ProductsIn(file), Faults(code))
  {
    match file.content
    case Unreadable(error) =>
      FreeCount(OwnIssues(r, file), code);
    case Seed(category, definitions, products) =>
      var name := Printed(category);
      var unsupported := UnsupportedIssues(r, file.path, name);
      var listed := DefinitionIssues(r, file.path, name, definitions);
      FreeDefinitionIssues(r, file.path, name, definitions, code);
      FreeCount(listed, code);
      FreeCount(unsupported, code);
      CountOwnProducts(r, file.path, name, products, code);
      CountThree(unsupported, listed, OwnProductsIssues(r, file.path, name, products), code);
  }

  /** All products of the readable files. */
  function Products(files: seq<SeedFile>): seq<Product> {
    if files == [] then [] else Products(files[..|files| - 1]) + ProductsIn(files[|files| - 1])
  }

  lemma {:induction false} CountComplaints(r: Registry, files: seq<SeedFile>, code: IssueCode)
    requires Counted(code)
    ensures Count(Complaints(r, files), code) == Sum(Products(files), Faults(code))
  {
    if files != [] {
      var n := |files| - 1;
      CountComplaints(r, files[..n], code);
      CountOwn(r, files[n], code);
      CountConcat(Complaints(r, files[..n]), OwnIssues(r, files[n]), code);
      SumConcat(Products(files[..n]), ProductsIn(files[n]), Faults(code));
    }
  }

  // ---------- the counts add up ----------

  lemma {:induction false} CodesConcat(a: seq<Product>, b: seq<Product>, kind: CodeKind)
    ensures Codes(a + b, kind) == Codes(a, kind) + Codes(b, kind)
  {
    if b == [] {
      ConcatNothing(a);
    } else {
      ConcatLast(a, b);
      CodesConcat(a, b[..|b| - 1], kind);
    }
  }

  lemma {:induction false} CodesOfProducts(files: seq<SeedFile>, kind: CodeKind)
    ensures CodesOf(files, kind) == Codes(Products(files), kind)
  {
    if files != [] {
      var n := |files| - 1;
      CodesOfProducts(files[..n], kind);
      CodesConcat(Products(files[..n]), ProductsIn(files[n]), kind);
    }
  }

  lemma {:induction false} CodesAndFaults(products: seq<Product>, kind: CodeKind)
    ensures |Codes(products, kind)| + Sum(products, Faults(CodeMissing(kind))) == |products|
  {
    if products != [] {
      CodesAndFaults(products[..|products| - 1], kind);
    }
  }

  lemma {:induction false} NoFaults(products: seq<Product>, kind: CodeKind)
    ensures Sum(products, Faults(DuplicateCode(kind))) == 0
  {
    if products != [] {
      NoFaults(products[..|products| - 1], kind);
    }
  }

  /** For each kind of code: distinct, repeated and missing codes add up to the products visited. */
  lemma EveryCodeIsAccountedFor(r: Registry, files: seq<SeedFile>, kind: CodeKind)
    ensures var st := Visit(r, files);
            |Known(st, kind)| + Count(st.issues, DuplicateCode(kind)) + Count(st.issues, CodeMissing(kind)) == |Products(files)|
  {
    var st := Visit(r, files);
    IssuesInClosedForm(r, files, DuplicateCode(kind));
    IssuesInClosedForm(r, files, CodeMissing(kind));
    CountComplaints(r, files, DuplicateCode(kind));
    CountComplaints(r, files, CodeMissing(kind));
    NoFaults(Products(files), kind);
    CodesAndFaults(Products(files), kind);
    CodesOfProducts(files, kind);
    KnownAreCodes(r, files, kind);
    KeysCount(Known(st, kind));
  }

  // ---------- buckets ----------

  datatype Counter = ProductCount | SkuCount | Documents | Stocked | Exhausted

  function Shown(b: Bucket, counter: Counter): nat {
    match counter
    case ProductCount => b.products
    case SkuCount => b.skus
    case Documents => b.docs
    case Stocked => b.inStock
    case Exhausted => b.outOfStock
  }

  /** What a product adds to each counter: itself, its document if its id names one that is there, and its stock. */
  function Adds(r: Registry, counter: Counter): Product -> nat {
    (p: Product) =>
      match counter
      case ProductCount => 1
      case SkuCount => 1
      case Documents =>
        (match p.legacy
         case Missing => 0
         case Text(id) => if id != "" && r.document(id).Some? then 1 else 0
         case Other(id, truthy) => if truthy && r.document(id).Some? then 1 else 0)
      case Stocked =>
        (match p.sku.inventory
         case Whole(n) => if n > 0 then 1 else 0
         case NotWhole(_) => 0)
      case Exhausted =>
        (match p.sku.inventory
         case Whole(n) => if n == 0 then 1 else 0
         case NotWhole(_) => 0)
  }

  lemma AddedIs(r: Registry, p: Product, b: Bucket, counter: Counter)
    ensures Shown(Visited(b, r, p), counter) == Shown(b, counter) + Adds(r, counter)(p)
  {
  }

  function Got(st: State, category: string, counter: Counter): nat {
    if category in st.categories then Shown(st.categories[category], counter) else 0
  }

  predicate Of(file: SeedFile, category: string) {
    file.content.Seed? && Printed(file.content.category) == category
  }

  /** All products of the files of one category. */
  function ProductsOf(files: seq<SeedFile>, category: string): seq<Product> {
    if files == [] then []
    else
      ProductsOf(files[..|files| - 1], category)
      + if Of(files[|files| - 1], category) then ProductsIn(files[|files| - 1]) else []
  }

  /** The last visit changes the bucket of its category only. */
  lemma LastVisit(st: State, r: Registry, file: string, name: string, products: seq<Product>)
    requires name in st.categories && products != []
    ensures var n := |products| - 1;
            var before := VisitProducts(st, r, file, name, products[..n]).categories;
            VisitProducts(st, r, file, name, products).categories == before[name := Visited(before[name], r, products[n])]
  {
  }

  lemma BucketChanged(before: State, after: State, r: Registry, name: string, p: Product, category: string, counter: Counter)
    requires name in before.categories
    requires after.categories == before.categories[name := Visited(before.categories[name], r, p)]
    ensures after.categories.Keys == before.categories.Keys
    ensures Got(after, category, counter) == Got(before, category, counter) + if name == category then Adds(r, counter)(p) else 0
    ensures PricesIn(after, category) == PricesIn(before, category) + if name == category then PriceOf(p) else []
  {
    AddedIs(r, p, before.categories[name], counter);
    ConcatNothing(PricesIn(before, category));
  }

  lemma {:induction false} VisitsCount(st: State, r: Registry, file: string, name: string, products: seq<Product>, category: string, counter: Counter)
    requires name in st.categories
    ensures var after := VisitProducts(st, r, file, name, products);
            && after.categories.Keys == st.categories.Keys
            && Got(after, category, counter) == Got(st, category, counter)
               + if name == category then Sum(products, Adds(r, counter)) else 0
  {
    if products != [] {
      var n: nat := |products| - 1;
      VisitsCount(st, r, file, name, products[..n], category, counter);
      LastVisit(st, r, file, name, products);
      BucketChanged(VisitProducts(st, r, file, name, products[..n]), VisitProducts(st, r, file, name, products), r, name,
                    products[n], category, counter);
    }
  }

  lemma {:induction false} FileCounts(st: State, r: Registry, file: SeedFile, category: string, counter: Counter)
    ensures Got(VisitFile(st, r, file), category, counter)
         == Got(st, category, counter) + if Of(file, category) then Sum(ProductsIn(file), Adds(r, counter)) else 0
    ensures category in VisitFile(st, r, file).categories <==> category in st.categories || Of(file, category)
  {
    if file.content.Seed? {
      var c := file.content;
      var begun := OpenFile(st, r, file.path, c.category, c.definitions);
      assert Got(begun, category, counter) == Got(st, category, counter);
      VisitsCount(begun, r, file.path, Printed(c.category), c.products, category, counter);
    }
  }

  /** Each counter of a category's bucket is the sum over the products of that category's files. */
  lemma {:induction false} BucketsAreSums(r: Registry, files: seq<SeedFile>, category: string, counter: Counter)
    ensures Got(Visit(r, files), category, counter) == Sum(ProductsOf(files, category), Adds(r, counter))
  {
    if files != [] {
      var n := |files| - 1;
      BucketsAreSums(r, files[..n], category, counter);
      FileCounts(Visit(r, files[..n]), r, files[n], category, counter);
      SumConcat(ProductsOf(files[..n], category), ProductsIn(files[n]), Adds(r, counter));
      assert ProductsOf(files[..n], category) + [] == ProductsOf(files[..n], category);
    }
  }

  /** A category is reported exactly when a readable file is of it. */
  lemma {:induction false} CategoriesReported(r: Registry, files: seq<SeedFile>, category: string)
    ensures category in Visit(r, files).categories <==> exists f :: f in files && Of(f, category)
  {
    if files != [] {
      var n := |files| - 1;
      CategoriesReported(r, files[..n], category);
      FileCounts(Visit(r, files[..n]), r, files[n], category, ProductCount);
      MembersOfLast(files);
    }
  }

  /** Per category, products in stock, out of stock and without a usable stock add up to its products. */
  lemma {:induction false} StockAddsUp(r: Registry, products: seq<Product>)
    ensures Sum(products, Adds(r, Stocked)) + Sum(products, Adds(r, Exhausted)) + Sum(products, Faults(InventoryInvalid))
         == Sum(products, Adds(r, ProductCount))
    ensures Sum(products, Adds(r, ProductCount)) == |products|
  {
    if products != [] {
      StockAddsUp(r, products[..|products| - 1]);
    }
  }

  lemma StockIsAccountedFor(r: Registry, files: seq<SeedFile>, category: string)
    ensures var st := Visit(r, files);
            && Got(st, category, Stocked) + Got(st, category, Exhausted)
               + Sum(ProductsOf(files, category), Faults(InventoryInvalid)) == Got(st, category, ProductCount)
            && Got(st, category, ProductCount) == Got(st, category, SkuCount) == |ProductsOf(files, category)|
    ensures Count(Visit(r, files).issues, InventoryInvalid) == Sum(Products(files), Faults(InventoryInvalid))
  {
    BucketsAreSums(r, files, category, Stocked);
    BucketsAreSums(r, files, category, Exhausted);
    BucketsAreSums(r, files, category, ProductCount);
    BucketsAreSums(r, files, category, SkuCount);
    StockAddsUp(r, ProductsOf(files, category));
    SameSums(ProductsOf(files, category), Adds(r, ProductCount), Adds(r, SkuCount));
    IssuesInClosedForm(r, files, InventoryInvalid);
    CountComplaints(r, files, InventoryInvalid);
  }

  // ---------- the order of the files ----------

  function OwnCounter(r: Registry, code: IssueCode): SeedFile -> nat {
    (file: SeedFile) => Count(OwnIssues(r, file), code)
  }

  lemma {:induction false} ComplaintsAsSum(r: Registry, files: seq<SeedFile>, code: IssueCode)
    ensures Count(Complaints(r, files), code) == Sum(files, OwnCounter(r, code))
  {
    if files != [] {
      var n := |files| - 1;
      ComplaintsAsSum(r, files[..n], code);
      CountConcat(Complaints(r, files[..n]), OwnIssues(r, files[n]), code);
    }
  }

  function CodeCounter(kind: CodeKind): SeedFile -> nat {
    (file: SeedFile) => |Codes(ProductsIn(file), kind)|
  }

  lemma {:induction false} CodesAsSum(files: seq<SeedFile>, kind: CodeKind)
    ensures |CodesOf(files, kind)| == Sum(files, CodeCounter(kind))
    ensures forall x :: x in CodesOf(files, kind) <==> exists f :: f in files && x in Codes(ProductsIn(f), kind)
  {
    if files != [] {
      CodesAsSum(files[..|files| - 1], kind);
      MembersOfLast(files);
    }
  }

  function CategoryCounter(): SeedFile -> nat {
    (file: SeedFile) => |CategoryIn(file)|
  }

  lemma {:induction false} CategoriesAsSum(files: seq<SeedFile>)
    ensures |CategoriesOf(files)| == Sum(files, CategoryCounter())
    ensures forall x :: x in CategoriesOf(files) <==> exists f :: f in files && x in CategoryIn(f)
  {
    if files != [] {
      CategoriesAsSum(files[..|files| - 1]);
      MembersOfLast(files);
    }
  }

  lemma SameCodes(files: seq<SeedFile>, other: seq<SeedFile>, kind: CodeKind)
    requires multiset(files) == multiset(other)
    ensures |CodesOf(files, kind)| == |CodesOf(other, kind)| && SetOf(CodesOf(files, kind)) == SetOf(CodesOf(other, kind))
  {
    CodesAsSum(files, kind);
    CodesAsSum(other, kind);
    SumPermuted(files, other, CodeCounter(kind));
    SameMembers(files, other);
  }

  lemma SameCategories(files: seq<SeedFile>, other: seq<SeedFile>)
    requires multiset(files) == multiset(other)
    ensures |CategoriesOf(files)| == |CategoriesOf(other)| && SetOf(CategoriesOf(files)) == SetOf(CategoriesOf(other))
  {
    CategoriesAsSum(files);
    CategoriesAsSum(other);
    SumPermuted(files, other, CategoryCounter());
    SameMembers(files, other);
  }

  lemma {:induction false} SameIssueCounts(r: Registry, files: seq<SeedFile>, other: seq<SeedFile>, code: IssueCode)
    requires multiset(files) == multiset(other)
    ensures Count(Visit(r, files).issues, code) == Count(Visit(r, other).issues, code)
  {
    IssuesInClosedForm(r, files, code);
    IssuesInClosedForm(r, other, code);
    ComplaintsAsSum(r, files, code);
    ComplaintsAsSum(r, other, code);
    SumPermuted(files, other, OwnCounter(r, code));
    SameCategories(files, other);
    if code.DuplicateCode? {
      SameCodes(files, other, code.kind);
    }
  }

  lemma SameVerdict(r: Registry, files: seq<SeedFile>, other: seq<SeedFile>)
    requires multiset(files) == multiset(other)
    ensures Visit(r, files).issues == [] <==> Visit(r, other).issues == []
  {
    NoneCounted(Visit(r, files).issues);
    NoneCounted(Visit(r, other).issues);
    forall code ensures Count(Visit(r, files).issues, code) == Count(Visit(r, other).issues, code) {
      SameIssueCounts(r, files, other, code);
    }
  }

  lemma SameKnown(r: Registry, files: seq<SeedFile>, other: seq<SeedFile>, kind: CodeKind)
    requires multiset(files) == multiset(other)
    ensures Known(Visit(r, files), kind).Keys == Known(Visit(r, other), kind).Keys
  {
    SameCodes(files, other, kind);
    KnownAreCodes(r, files, kind);
    KnownAreCodes(r, other, kind);
  }

  lemma SameReportedCategories(r: Registry, files: seq<SeedFile>, other: seq<SeedFile>)
    requires multiset(files) == multiset(other)
    ensures Visit(r, files).categories.Keys == Visit(r, other).categories.Keys
  {
    SameMembers(files, other);
    forall category ensures category in Visit(r, files).categories <==> category in Visit(r, other).categories {
      CategoriesReported(r, files, category);
      CategoriesReported(r, other, category);
    }
  }

  /** However the files are ordered, the verdict, the category, product and SKU counts, and the number of
      issues of every code are the same. */
  lemma OrderDoesNotMatter(r: Registry, files: seq<SeedFile>, other: seq<SeedFile>)
    requires multiset(files) == multiset(other)
    ensures var a, b := ReportOf(Visit(r, files)), ReportOf(Visit(r, other));
            && a.valid == b.valid && a.categories == b.categories && a.products == b.products && a.skus == b.skus
            && forall code :: Count(a.issues, code) == Count(b.issues, code)
  {
    SameVerdict(r, files, other);
    SameReportedCategories(r, files, other);
    KeysCount(Visit(r, files).productCodes);
    KeysCount(Visit(r, other).productCodes);
    KeysCount(Visit(r, files).skuCodes);
    KeysCount(Visit(r, other).skuCodes);
    SameKnown(r, files, other, ProductCode);
    SameKnown(r, files, other, SkuCode);
    assert forall st: State :: |st.categories| == |st.categories.Keys|;
    forall code ensures Count(Visit(r, files).issues, code) == Count(Visit(r, other).issues, code) {
      SameIssueCounts(r, files, other, code);
    }
  }

  function BucketCounter(r: Registry, category: string, counter: Counter): SeedFile -> nat {
    (file: SeedFile) => if Of(file, category) then Sum(ProductsIn(file), Adds(r, counter)) else 0
  }

  lemma {:induction false} BucketsAsSum(r: Registry, files: seq<SeedFile>, category: string, counter: Counter)
    ensures Got(Visit(r, files), category, counter) == Sum(files, BucketCounter(r, category, counter))
  {
    if files != [] {
      var n := |files| - 1;
      BucketsAsSum(r, files[..n], category, counter);
      FileCounts(Visit(r, files[..n]), r, files[n], category, counter);
    }
  }

  /** Nor does the order change a product, SKU, stock or document counter of any category. */
  lemma BucketsDoNotDependOnOrder(r: Registry, files: seq<SeedFile>, other: seq<SeedFile>, category: string, counter: Counter)
    requires multiset(files) == multiset(other)
    ensures Got(Visit(r, files), category, counter) == Got(Visit(r, other), category, counter)
  {
    BucketsAsSum(r, files, category, counter);
    BucketsAsSum(r, other, category, counter);
    SumPermuted(files, other, BucketCounter(r, category, counter));
  }

  // ---------- the price range ----------

  function PricesIn(st: State, category: string): seq<real> {
    if category in st.categories then st.categories[category].prices else []
  }

  function PricesOf(products: seq<Product>): seq<real> {
    if products == [] then [] else PricesOf(products[..|products| - 1]) + PriceOf(products[|products| - 1])
  }

  lemma {:induction false} VisitsPrices(st: State, r: Registry, file: string, name: string, products: seq<Product>, category: string)
    requires name in st.categories
    ensures var after := VisitProducts(st, r, file, name, products);
            && after.categories.Keys == st.categories.Keys
            && PricesIn(after, category) == PricesIn(st, category) + if name == category then PricesOf(products) else []
  {
    if products != [] {
      var n: nat := |products| - 1;
      VisitsPrices(st, r, file, name, products[..n], category);
      LastVisit(st, r, file, name, products);
      BucketChanged(VisitProducts(st, r, file, name, products[..n]), VisitProducts(st, r, file, name, products), r, name,
                    products[n], category, ProductCount);
    }
  }

  lemma FilePrices(st: State, r: Registry, file: SeedFile, category: string)
    ensures PricesIn(VisitFile(st, r, file), category)
         == PricesIn(st, category) + if Of(file, category) then PricesOf(ProductsIn(file)) else []
  {
    if file.content.Seed? {
      var c := file.content;
      var begun := OpenFile(st, r, file.path, c.category, c.definitions);
      assert PricesIn(begun, category) == PricesIn(st, category);
      VisitsPrices(begun, r, file.path, Printed(c.category), c.products, category);
    }
  }

  /** Some readable file of the category has a SKU with this price. */
  ghost predicate Priced(files: seq<SeedFile>, category: string, x: real) {
    exists f :: f in files && Of(f, category) && x in PricesOf(ProductsIn(f))
  }

  lemma {:induction false} PricesAre(r: Registry, files: seq<SeedFile>, category: string, x: real)
    ensures x in PricesIn(Visit(r, files), category) <==> Priced(files, category, x)
  {
    if files != [] {
      var n := |files| - 1;
      PricesAre(r, files[..n], category, x);
      FilePrices(Visit(r, files[..n]), r, files[n], category);
      MembersOfLast(files);
    }
  }

  ghost predicate IsRange(range: Range, priced: real -> bool) {
    match range
    case NoPrice => forall x :: !priced(x)
    case Range(low, high) => priced(low) && priced(high) && forall x | priced(x) :: low <= x <= high
  }

  lemma {:induction false} RangeIs(prices: seq<real>)
    ensures RangeOf(prices).NoPrice? <==> prices == []
    ensures prices != [] ==>
              && RangeOf(prices).low in prices && RangeOf(prices).high in prices
              && forall x | x in prices :: RangeOf(prices).low <= x <= RangeOf(prices).high
  {
    if prices != [] {
      RangeIs(prices[..|prices| - 1]);
      MembersOfLast(prices);
      RangeOfLast(prices);
    }
  }

  lemma RangeOfLast(prices: seq<real>)
    requires prices != []
    ensures var before, last := RangeOf(prices[..|prices| - 1]), prices[|prices| - 1];
            RangeOf(prices) ==
              if before.NoPrice? then Range(last, last)
              else Range(if last < before.low then last else before.low, if last > before.high then last else before.high)
  {
  }

  lemma RangeHolds(prices: seq<real>, priced: real -> bool)
    requires forall x :: priced(x) <==> x in prices
    ensures IsRange(RangeOf(prices), priced)
  {
    RangeIs(prices);
  }

  lemma OneRange(a: Range, b: Range, p: real -> bool, q: real -> bool)
    requires IsRange(a, p) && IsRange(b, q) && forall x :: p(x) <==> q(x)
    ensures a == b
  {
  }

  ghost function PricedIn(files: seq<SeedFile>, category: string): real -> bool {
    x => Priced(files, category, x)
  }

  /** The price range of a category is attained by SKUs of its files and holds all of theirs; the order of
      the files does not change it. */
  lemma PriceRangeIs(r: Registry, files: seq<SeedFile>, category: string)
    requires category in Visit(r, files).categories
    ensures IsRange(ReportOf(Visit(r, files)).ranges[category], PricedIn(files, category))
  {
    var prices := Visit(r, files).categories[category].prices;
    forall x ensures PricedIn(files, category)(x) <==> x in prices {
      PricesAre(r, files, category, x);
    }
    RangeHolds(prices, PricedIn(files, category));
  }

  lemma PriceRangeDoesNotDependOnOrder(r: Registry, files: seq<SeedFile>, other: seq<SeedFile>, category: string)
    requires multiset(files) == multiset(other) && category in Visit(r, files).categories
    ensures category in Visit(r, other).categories
    ensures ReportOf(Visit(r, files)).ranges[category] == ReportOf(Visit(r, other)).ranges[category]
  {
    SameMembers(files, other);
    CategoriesReported(r, files, category);
    CategoriesReported(r, other, category);
    PriceRangeIs(r, files, category);
    PriceRangeIs(r, other, category);
    assert forall x :: Priced(files, category, x) <==> Priced(other, category, x);
    OneRange(ReportOf(Visit(r, files)).ranges[category], ReportOf(Visit(r, other)).ranges[category],
             PricedIn(files, category), PricedIn(other, category));
  }

  // ---------- the attribute count ----------

  function ShownAttributes(st: State, category: string): nat {
    if category in st.categories then st.categories[category].attributes else 0
  }

  lemma {:induction false} VisitsKeepAttributes(st: State, r: Registry, file: string, name: string, products: seq<Product>, category: string)
    requires name in st.categories
    ensures var after := VisitProducts(st, r, file, name, products);
            after.categories.Keys == st.categories.Keys && ShownAttributes(after, category) == ShownAttributes(st, category)
  {
    if products != [] {
      VisitsKeepAttributes(st, r, file, name, products[..|products| - 1], category);
    }
  }

  function Definitions(file: SeedFile): nat {
    match file.content
    case Unreadable(_) => 0
    case Seed(_, definitions, _) => |definitions|
  }

  lemma FileAttributes(st: State, r: Registry, file: SeedFile, category: string)
    ensures ShownAttributes(VisitFile(st, r, file), category)
         == if category !in st.categories && Of(file, category) then Definitions(file) else ShownAttributes(st, category)
  {
    if file.content.Seed? {
      var c := file.content;
      VisitsKeepAttributes(OpenFile(st, r, file.path, c.category, c.definitions), r, file.path, Printed(c.category), c.products,
                           category);
    }
  }

  predicate FirstOf(files: seq<SeedFile>, category: string, i: nat) {
    i < |files| && Of(files[i], category) && forall j | 0 <= j < i :: !Of(files[j], category)
  }

  lemma ReportedAfterFirst(r: Registry, files: seq<SeedFile>, category: string, i: nat)
    requires FirstOf(files, category, i)
    ensures category in Visit(r, files).categories
  {
    CategoriesReported(r, files, category);
    assert files[i] in files;
  }

  lemma NotReportedBeforeFirst(r: Registry, front: seq<SeedFile>, category: string)
    requires forall j | 0 <= j < |front| :: !Of(front[j], category)
    ensures category !in Visit(r, front).categories
  {
    CategoriesReported(r, front, category);
  }

  /** The number of attribute definitions shown for a category is that of its first readable file. */
  lemma {:induction false} AttributesAreOfFirst(r: Registry, files: seq<SeedFile>, category: string, i: nat)
    requires FirstOf(files, category, i)
    ensures category in Visit(r, files).categories && ShownAttributes(Visit(r, files), category) == Definitions(files[i])
    decreases |files|
  {
    var n: nat := |files| - 1;
    var front := files[..n];
    ReportedAfterFirst(r, files, category, i);
    FileAttributes(Visit(r, front), r, files[n], category);
    if i < n {
      AttributesAreOfFirst(r, front, category, i);
    } else {
      NotReportedBeforeFirst(r, front, category);
    }
  }

  lemma {:induction false} FirstExists(files: seq<SeedFile>, category: string) returns (i: nat)
    requires exists f :: f in files && Of(f, category)
    ensures FirstOf(files, category, i)
  {
    if Of(files[0], category) {
      i := 0;
    } else {
      i := FirstExists(files[1..], category);
      i := i + 1;
    }
  }

  /** Some order of the files shows the definitions of any one of them. */
  lemma PutFirst(r: Registry, files: seq<SeedFile>, category: string, f: SeedFile) returns (other: seq<SeedFile>)
    requires f in files && Of(f, category)
    ensures multiset(other) == multiset(files) && ShownAttributes(Visit(r, other), category) == Definitions(f)
  {
    var a, b := TakeOut(files, f);
    other := [f] + (a + b);
    assert multiset(other) == multiset{f} + multiset(a + b);
    assert other[0] == f;
    AttributesAreOfFirst(r, other, category, 0);
  }

  predicate ListEquallyMany(files: seq<SeedFile>, category: string) {
    forall f, g | f in files && g in files && Of(f, category) && Of(g, category) :: Definitions(f) == Definitions(g)
  }

  lemma OrderKeepsAttributes(r: Registry, files: seq<SeedFile>, other: seq<SeedFile>, category: string)
    requires ListEquallyMany(files, category) && multiset(other) == multiset(files)
    ensures ShownAttributes(Visit(r, other), category) == ShownAttributes(Visit(r, files), category)
  {
    SameMembers(files, other);
    CategoriesReported(r, files, category);
    CategoriesReported(r, other, category);
    if f :| f in files && Of(f, category) {
      var i := FirstExists(files, category);
      var j := FirstExists(other, category);
      AttributesAreOfFirst(r, files, category, i);
      AttributesAreOfFirst(r, other, category, j);
      assert files[i] in files && other[j] in other;
    }
  }

  /** Every order of the files shows the same number of attribute definitions for a category exactly when
      all its readable files list equally many. */
  lemma AttributeCountIgnoresOrderExactly(r: Registry, files: seq<SeedFile>, category: string)
    ensures ListEquallyMany(files, category)
        <==> forall other :: multiset(other) == multiset(files) ==>
                             ShownAttributes(Visit(r, other), category) == ShownAttributes(Visit(r, files), category)
  {
    if ListEquallyMany(files, category) {
      forall other | multiset(other) == multiset(files)
        ensures ShownAttributes(Visit(r, other), category) == ShownAttributes(Visit(r, files), category)
      {
        OrderKeepsAttributes(r, files, other, category);
      }
    } else {
      var f, g :| f in files && g in files && Of(f, category) && Of(g, category) && Definitions(f) != Definitions(g);
      var a := PutFirst(r, files, category, f);
      var b := PutFirst(r, files, category, g);
      assert ShownAttributes(Visit(r, a), category) != ShownAttributes(Visit(r, b), category);
    }
  }
}
