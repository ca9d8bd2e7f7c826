/** The process indexer (indexador_processos.py): `analisar_pasta` sorts
    the file names of a folder into four categories by keywords found in
    the lower-cased name, and `gerar_relatorio` lays the categories out as
    the lines of the index. The folder listing is the input sequence of
    names; writing the index file is not part of this model. */
module Indexador {
  import opened PyStr

  /** The keys of `categorias`, in the order the dictionary is built. */
  datatype Category = Peticoes | Decisoes | Provas | Outros

  /** Position of a category in `categorias`. */
  function Rank(c: Category): nat {
    match c
    case Peticoes => 0
    case Decisoes => 1
    case Provas => 2
    case Outros => 3
  }

  /** `tipo.upper()` for the dictionary key of `c`, as the header of its
      section prints it. */
  function UpperName(c: Category): string {
    match c
    case Peticoes => "PETICOES"
    case Decisoes => "DECISOES"
    case Provas => "PROVAS"
    case Outros => "OUTROS"
  }

  /** The keywords that send a name to a category; `outros` takes the rest. */
  function Keywords(c: Category): seq<string> {
    match c
    case Peticoes => ["peticao", "inicial", "contestacao"]
    case Decisoes => ["decisao", "sentenca", "acordao"]
    case Provas => ["doc", "anexo", "comprovante"]
    case Outros => []
  }

  /** `any(p in nome for p in keywords)`. */
  function AnyIn(nome: string, keywords: seq<string>): (b: bool)
    ensures b <==> exists i | 0 <= i < |keywords| :: Contains(nome, keywords[i])
  {
    if keywords == [] then false
    else if Contains(nome, keywords[0]) then true
    else
      assert forall i | 1 <= i < |keywords| :: keywords[i] == keywords[1..][i - 1];
      AnyIn(nome, keywords[1..])
  }

  /** The `if`/`elif` chain of `analisar_pasta` on `arq.name`. */
  function CategoryOf(name: string): Category {
    var nome := Lower(name);
    if AnyIn(nome, Keywords(Peticoes)) then Peticoes
    else if AnyIn(nome, Keywords(Decisoes)) then Decisoes
    else if AnyIn(nome, Keywords(Provas)) then Provas
    else Outros
  }

  /** Some keyword of `c` occurs in the lower-cased `name`. */
  predicate Mentions(name: string, c: Category) {
    exists p | p in Keywords(c) :: Contains(Lower(name), p)
  }

  /** The four lists of `categorias`. */
  datatype Buckets = Buckets(peticoes: seq<string>, decisoes: seq<string>, provas: seq<string>, outros: seq<string>)

  function Get(b: Buckets, c: Category): seq<string> {
    match c
    case Peticoes => b.peticoes
    case Decisoes => b.decisoes
    case Provas => b.provas
    case Outros => b.outros
  }

  /** `categorias[c].append(name)`. */
  function Append(b: Buckets, c: Category, name: string): (b': Buckets)
    ensures Get(b', c) == Get(b, c) + [name]
    ensures forall d | d != c :: Get(b', d) == Get(b, d)
  {
    match c
    case Peticoes => b.(peticoes := b.peticoes + [name])
    case Decisoes => b.(decisoes := b.decisoes + [name])
    case Provas => b.(provas := b.provas + [name])
    case Outros => b.(outros := b.outros + [name])
  }

  // The lists are stated for any rule `category` from names to categories;
  // `analisar_pasta` uses `CategoryOf`.

  /** The names of category `c`, in input order. */
  function Bucket(names: seq<string>, category: string -> Category, c: Category): seq<string> {
    if names == [] then []
    else
      var last := names[|names| - 1];
      Bucket(names[..|names| - 1], category, c) + (if category(last) == c then [last] else [])
  }

  /** The four lists for `names`. */
  function Sorted(names: seq<string>, category: string -> Category): Buckets {
    Buckets(Bucket(names, category, Peticoes), Bucket(names, category, Decisoes),
            Bucket(names, category, Provas), Bucket(names, category, Outros))
  }

  /** The `categorias` that `analisar_pasta` returns for `names`. */
  function Analysis(names: seq<string>): Buckets {
    Sorted(names, CategoryOf)
  }

  /** `analisar_pasta` over the names of the folder's entries. */
  method AnalisarPasta(names: seq<string>) returns (categorias: Buckets)
    ensures categorias == Analysis(names)
  {
    categorias := Buckets([], [], [], []);
    var i := 0;
    while i < |names|
      invariant 0 <= i <= |names|
      invariant categorias == Sorted(names[..i], CategoryOf)
    {
      var nome := Lower(names[i]);
      var c: Category;
      if AnyIn(nome, ["peticao", "inicial", "contestacao"]) {
        c := Peticoes;
      } else if AnyIn(nome, ["decisao", "sentenca", "acordao"]) {
        c := Decisoes;
      } else if AnyIn(nome, ["doc", "anexo", "comprovante"]) {
        c := Provas;
      } else {
        c := Outros;
      }
      assert c == CategoryOf(names[i]);
      SortedSnoc(names, CategoryOf, i);
      categorias := Append(categorias, c, names[i]);
      i := i + 1;
    }
    assert names[..i] == names;
  }

  /** One more name joins exactly the list of its own category. */
  lemma SortedSnoc(names: seq<string>, category: string -> Category, i: nat)
    requires i < |names|
    ensures Sorted(names[..i + 1], category) == Append(Sorted(names[..i], category), category(names[i]), names[i])
  {
    var prefix := names[..i + 1];
    assert prefix[..|prefix| - 1] == names[..i];
    var b' := Append(Sorted(names[..i], category), category(names[i]), names[i]);
    assert Get(b', Peticoes) == Bucket(prefix, category, Peticoes);
    assert Get(b', Decisoes) == Bucket(prefix, category, Decisoes);
    assert Get(b', Provas) == Bucket(prefix, category, Provas);
    assert Get(b', Outros) == Bucket(prefix, category, Outros);
  }

  // ---------------------------------------------------------------------
  // Properties of the categorisation
  // ---------------------------------------------------------------------

  /** The precedence rule: a name goes to the first category, in the order
      peticoes, decisoes, provas, whose keywords occur in the lower-cased
      name, and to outros when none does. */
  lemma CategoryPrecedence(name: string, c: Category)
    ensures CategoryOf(name) == c <==>
      (c == Outros || Mentions(name, c)) && forall d | Rank(d) < Rank(c) :: !Mentions(name, d)
  {
    var nome := Lower(name);
    forall d ensures Mentions(name, d) <==> AnyIn(nome, Keywords(d)) {
      if Mentions(name, d) {
        var p :| p in Keywords(d) && Contains(nome, p);
        var i :| 0 <= i < |Keywords(d)| && Keywords(d)[i] == p;
      }
    }
  }

  /** The category depends on the name only up to case. */
  lemma CategoryIgnoresCase(name: string)
    ensures CategoryOf(Lower(name)) == CategoryOf(name)
  {
    LowerIdempotent(name);
  }

  /** A list holds exactly the names of its category, as given (not
      lower-cased). */
  lemma {:induction false} BucketMembers(names: seq<string>, category: string -> Category, c: Category, x: string)
    ensures x in Bucket(names, category, c) <==> x in names && category(x) == c
    decreases |names|
  {
    if names != [] {
      var init := names[..|names| - 1];
      BucketMembers(init, category, c, x);
      assert names == init + [names[|names| - 1]];
    }
  }

  /** Each list keeps input order: sorting a concatenation sorts each part. */
  lemma {:induction false} BucketConcat(a: seq<string>, b: seq<string>, category: string -> Category, c: Category)
    ensures Bucket(a + b, category, c) == Bucket(a, category, c) + Bucket(b, category, c)
    decreases |b|
  {
    if b == [] {
      assert a + b == a;
    } else {
      var init := b[..|b| - 1];
      BucketConcat(a, init, category, c);
      assert (a + b)[..|a + b| - 1] == a + init;
    }
  }

  /** All the names the lists hold, with repetitions. */
  function Contents(b: Buckets): multiset<string> {
    multiset(b.peticoes) + multiset(b.decisoes) + multiset(b.provas) + multiset(b.outros)
  }

  lemma AppendContents(b: Buckets, c: Category, name: string)
    ensures Contents(Append(b, c, name)) == Contents(b) + multiset{name}
  {
    var b' := Append(b, c, name);
    match c
    case Peticoes =>
      assert multiset(b'.peticoes) == multiset(b.peticoes) + multiset{name};
    case Decisoes =>
      assert multiset(b'.decisoes) == multiset(b.decisoes) + multiset{name};
    case Provas =>
      assert multiset(b'.provas) == multiset(b.provas) + multiset{name};
    case Outros =>
      assert multiset(b'.outros) == multiset(b.outros) + multiset{name};
  }

  /** Every name is in exactly one list: the lists together are a
      rearrangement of the names, so their sizes add up to the number of
      names. */
  lemma {:induction false} SortedPartitions(names: seq<string>, category: string -> Category)
    ensures Contents(Sorted(names, category)) == multiset(names)
    decreases |names|
  {
    if names != [] {
      var n := |names| - 1;
      LastStep(names, category);
      AppendContents(Sorted(names[..n], category), category(names[n]), names[n]);
      SortedPartitions(names[..n], category);
    }
  }

  /** The step from all names but the last to all names. */
  lemma LastStep(names: seq<string>, category: string -> Category)
    requires names != []
    ensures var n := |names| - 1;
      Sorted(names, category) == Append(Sorted(names[..n], category), category(names[n]), names[n])
      && multiset(names) == multiset(names[..n]) + multiset{names[n]}
  {
    var n := |names| - 1;
    SortedSnoc(names, category, n);
    assert names[..n + 1] == names;
    assert names == names[..n] + [names[n]];
  }

  /** The list sizes add up to the number of names. */
  lemma SortedSizes(names: seq<string>, category: string -> Category)
    ensures |Bucket(names, category, Peticoes)| + |Bucket(names, category, Decisoes)|
          + |Bucket(names, category, Provas)| + |Bucket(names, category, Outros)| == |names|
  {
    SortedPartitions(names, category);
    assert |multiset(names)| == |names|;
  }

  // ---------------------------------------------------------------------
  // gerar_relatorio
  // ---------------------------------------------------------------------

  /** The first line of the index. */
  function Title(): string {
    "RESUMO DO PROCESSO\n"
  }

  /** `f"\n--- {tipo.upper()} ---"`. */
  function Header(c: Category): string {
    "\n--- " + UpperName(c) + " ---"
  }

  /** `categorias.items()`: the four lists, in the order the dictionary
      was built. */
  function Items(b: Buckets): (items: seq<(Category, seq<string>)>)
    ensures |items| == 4
    ensures forall k | 0 <= k < 4 :: Rank(items[k].0) == k && items[k].1 == Get(b, items[k].0)
  {
    [(Peticoes, b.peticoes), (Decisoes, b.decisoes), (Provas, b.provas), (Outros, b.outros)]
  }

  // The layout is stated for any title and any header rule; the index
  // uses `Title()` and `Header`.

  /** The sections of `items`, each its header followed by its names. */
  function Sections(items: seq<(Category, seq<string>)>, header: Category -> string): (lines: seq<string>)
    ensures |lines| == |items| + TotalSize(items)
  {
    if items == [] then []
    else
      var last := items[|items| - 1];
      Sections(items[..|items| - 1], header) + [header(last.0)] + last.1
  }

  /** The number of names the lists of `items` hold. */
  function TotalSize(items: seq<(Category, seq<string>)>): nat {
    if items == [] then 0 else TotalSize(items[..|items| - 1]) + |items[|items| - 1].1|
  }

  /** `linhas` of `gerar_relatorio`. */
  function IndexLines(b: Buckets, title: string, header: Category -> string): seq<string> {
    [title] + Sections(Items(b), header)
  }

  /** The text written to `indice_processo.txt`. */
  function IndexText(b: Buckets): string {
    Join(IndexLines(b, Title(), Header), "\n")
  }

  /** `gerar_relatorio`, returning the text instead of writing it. */
  method GerarRelatorio(categorias: Buckets) returns (text: string)
    ensures text == IndexText(categorias)
  {
    var linhas := LayOut(Items(categorias), Title(), Header);
    text := Join(linhas, "\n");
  }

  /** The nested loops of `gerar_relatorio`, for its title and header rule. */
  method LayOut(items: seq<(Category, seq<string>)>, title: string, header: Category -> string)
    returns (linhas: seq<string>)
    ensures linhas == [title] + Sections(items, header)
  {
    linhas := [title];
    var i := 0;
    while i < |items|
      invariant 0 <= i <= |items|
      invariant linhas == [title] + Sections(items[..i], header)
    {
      var (tipo, lista) := items[i];
      linhas := ListCategory(header(tipo), lista, linhas);
      SectionsSnoc(items, header, i);
      i := i + 1;
    }
    assert items[..i] == items;
  }

  /** One pass of the outer loop: the header line, then the names. */
  method ListCategory(cabecalho: string, lista: seq<string>, linhas: seq<string>) returns (linhas': seq<string>)
    ensures linhas' == linhas + [cabecalho] + lista
  {
    linhas' := linhas + [cabecalho];
    var j := 0;
    while j < |lista|
      invariant 0 <= j <= |lista|
      invariant linhas' == linhas + [cabecalho] + lista[..j]
    {
      linhas' := linhas' + [lista[j]];
      j := j + 1;
    }
    assert lista[..j] == lista;
  }

  lemma SectionsSnoc(items: seq<(Category, seq<string>)>, header: Category -> string, i: nat)
    requires i < |items|
    ensures Sections(items[..i + 1], header) == Sections(items[..i], header) + [header(items[i].0)] + items[i].1
  {
    var prefix := items[..i + 1];
    assert prefix[..|prefix| - 1] == items[..i];
  }

  // ---------------------------------------------------------------------
  // Properties of the index
  // ---------------------------------------------------------------------

  /** The section of item `k` follows the sections of the items before it. */
  lemma {:induction false} SectionsPrefix(items: seq<(Category, seq<string>)>, header: Category -> string, k: nat)
    requires k < |items|
    ensures var p := Sections(items[..k], header) + [header(items[k].0)] + items[k].1;
      |p| <= |Sections(items, header)| && Sections(items, header)[..|p|] == p
    decreases |items|
  {
    var n := |items| - 1;
    var init := items[..n];
    var p := Sections(items[..k], header) + [header(items[k].0)] + items[k].1;
    if k == n {
      assert items[..k] == init;
      assert Sections(items, header) == p;
    } else {
      SectionsPrefix(init, header, k);
      assert init[..k] == items[..k] && init[k] == items[k];
      var whole := Sections(init, header) + [header(items[n].0)] + items[n].1;
      assert Sections(items, header) == whole;
      assert whole[..|Sections(init, header)|] == Sections(init, header);
    }
  }

  /** The index: the title, then for each list in the order peticoes,
      decisoes, provas, outros its header followed by its names. */
  lemma IndexLayout(b: Buckets, title: string, header: Category -> string, k: nat)
    requires k < 4
    ensures var items := Items(b);
      var p := [title] + Sections(items[..k], header) + [header(items[k].0)] + Get(b, items[k].0);
      Rank(items[k].0) == k
      && |p| <= |IndexLines(b, title, header)| && IndexLines(b, title, header)[..|p|] == p
  {
    var items := Items(b);
    SectionsPrefix(items, header, k);
    var q := Sections(items[..k], header) + [header(items[k].0)] + items[k].1;
    var lines := IndexLines(b, title, header);
    assert lines == [title] + Sections(items, header);
    assert [title] + Sections(items[..k], header) + [header(items[k].0)] + Get(b, items[k].0) == [title] + q;
    assert lines[..1 + |q|] == [title] + Sections(items, header)[..|q|];
  }

  /** `linhas` has 5 + |names| entries: the title, four headers and one per
      file. The title ends and each header starts with a newline, so the
      written text has more lines than `linhas` has entries. */
  lemma IndexLineCount(names: seq<string>, title: string, header: Category -> string)
    ensures |IndexLines(Analysis(names), title, header)| == 5 + |names|
  {
    var b := Analysis(names);
    var items := Items(b);
    SortedSizes(names, CategoryOf);
    assert items[..0] == [] && items[..4] == items;
    TotalSizeStep(items, 0);
    TotalSizeStep(items, 1);
    TotalSizeStep(items, 2);
    TotalSizeStep(items, 3);
  }

  lemma TotalSizeStep(items: seq<(Category, seq<string>)>, k: nat)
    requires k < |items|
    ensures TotalSize(items[..k + 1]) == TotalSize(items[..k]) + |items[k].1|
  {
    assert items[..k + 1][..k] == items[..k];
  }

  /** Every file of the folder is listed in the index, under its own name. */
  lemma IndexListsEveryName(names: seq<string>, title: string, header: Category -> string, x: string)
    requires x in names
    ensures x in IndexLines(Analysis(names), title, header)
  {
    var b := Analysis(names);
    var items := Items(b);
    var c := CategoryOf(x);
    BucketMembers(names, CategoryOf, c, x);
    var k := Rank(c);
    assert items[k].0 == c;
    IndexLayout(b, title, header, k);
    var p := [title] + Sections(items[..k], header) + [header(c)] + Get(b, c);
    assert x in p;
  }
}
