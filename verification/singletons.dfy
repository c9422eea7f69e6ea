/**
 * The three lazily created singletons. Each C# class keeps its one instance in
 * a private static field that is null until the `Instance` property is first
 * read. Dafny has no mutable static fields, so each such field is a field of
 * an object standing for the class's static storage; that object is created
 * once, with the field null, as the runtime does before first use.
 */
module Singletons {

  /** The program object; its constructor is private and does nothing. */
  class Program {
    constructor () {}
  }

  /** The factory for HTTP clients; its constructor is private and does nothing. */
  class HttpClientFactory {
    constructor () {}
  }

  /** The factory for HTML parsers; its constructor is private and does nothing. */
  class HtmlParserFactory {
    constructor () {}
  }

  /** The static storage of `Program`: its `instance` field. */
  class ProgramStatics {
    var instance: Program?

    /** Before the first read the field holds null. */
    constructor ()
      ensures instance == null
    {
      instance := null;
    }

    /**
     * The `Instance` getter. The first read creates a new object and stores it;
     * every later read returns the stored object and creates nothing.
     */
    method Instance() returns (r: Program)
      modifies this
      ensures instance == r
      ensures old(instance) == null ==> fresh(r)
      ensures old(instance) != null ==> r == old(instance)
    {
      if instance == null {
        instance := new Program();
      }
      r := instance;
    }
  }

  /** The static storage of `HttpClientFactory`: its `instance` field. */
  class HttpClientFactoryStatics {
    var instance: HttpClientFactory?

    /** Before the first read the field holds null. */
    constructor ()
      ensures instance == null
    {
      instance := null;
    }

    /**
     * The `Instance` getter. The first read creates a new factory and stores it;
     * every later read returns the stored factory and creates nothing.
     */
    method Instance() returns (r: HttpClientFactory)
      modifies this
      ensures instance == r
      ensures old(instance) == null ==> fresh(r)
      ensures old(instance) != null ==> r == old(instance)
    {
      if instance == null {
        instance := new HttpClientFactory();
      }
      r := instance;
    }
  }

  /** The static storage of `HtmlParserFactory`: its `instance` field. */
  class HtmlParserFactoryStatics {
    var instance: HtmlParserFactory?

    /** Before the first read the field holds null. */
    constructor ()
      ensures instance == null
    {
      instance := null;
    }

    /**
     * The `Instance` getter. The first read creates a new factory and stores it;
     * every later read returns the stored factory and creates nothing.
     */
    method Instance() returns (r: HtmlParserFactory)
      modifies this
      ensures instance == r
      ensures old(instance) == null ==> fresh(r)
      ensures old(instance) != null ==> r == old(instance)
    {
      if instance == null {
        instance := new HtmlParserFactory();
      }
      r := instance;
    }
  }

  /**
   * Two fetches in a row, as the definition fetcher and the link scraper each
   * read `HttpClientFactory.Instance`: both get the same factory, and it stays stored.
   */
  method SharedFactory(statics: HttpClientFactoryStatics) returns (first: HttpClientFactory, second: HttpClientFactory)
    modifies statics
    ensures first == second && statics.instance == first
    ensures old(statics.instance) == null ==> fresh(first)
    ensures old(statics.instance) != null ==> first == old(statics.instance)
  {
    first := statics.Instance();
    second := statics.Instance();
  }
}
