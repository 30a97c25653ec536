/**
 * The parsed source documents, as values: the verse corpus (two testaments
 * of books, chapters and verses), Easton's dictionary and Nave's topical
 * index. Reading and parsing the JSON files is not part of this model.
 */
module Corpus {
  import opened Wrappers

  datatype Verse = Verse(versiculo: int, texto: string)

  datatype Chapter = Chapter(capitulo: int, versiculos: seq<Verse>)

  /** A book; `abreviacao` is the one key a book object may lack. */
  datatype Book = Book(nome: string, abreviacao: Option<string>, capitulos: seq<Chapter>)

  /** The verse corpus; either testament key may be missing from the JSON object. */
  datatype Bible = Bible(antigoTestamento: Option<seq<Book>>, novoTestamento: Option<seq<Book>>)

  /** `biblia.get(testamento, [])`. */
  function BooksOf(testament: Option<seq<Book>>): seq<Book> {
    match testament
    case None => []
    case Some(books) => books
  }

  /** Every book in scan order: antigoTestamento first, then novoTestamento, each in declaration order. */
  function ScanOrder(bible: Bible): seq<Book> {
    BooksOf(bible.antigoTestamento) + BooksOf(bible.novoTestamento)
  }

  /** `livro_obj.get("abreviacao", "")`. */
  function AbbreviationOrEmpty(book: Book): string {
    match book.abreviacao
    case None => ""
    case Some(a) => a
  }

  /** One entry of Easton's dictionary. */
  datatype DictionaryEntry = DictionaryEntry(termo: string, descricao: string)

  /** One entry of Nave's topical index. */
  datatype TopicEntry = TopicEntry(topic: string, versiculos: seq<string>)
}
