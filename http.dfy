/** Scrapy's request and response objects, reduced to the parts the
    composition machinery reads and writes. A request's `meta` dict is
    modelled by the two entries the code uses, and a response reads its
    `meta` through the request that produced it, as scrapy's does. */
module Http {
  import opened Base

  /** What `request.callback` holds: nothing (`None`), a callable (named by
      an identifier), or a string naming one, to be resolved later. */
  datatype Callback = NoCallback | Callable(id: string) | CallbackPath(path: string)

  /** The `meta['composer']` dict. `.get('callback')` reads `None` both when
      the key is absent and when it holds `None`, so `NoCallback` stands for
      either; `nextSpider` is `None` when the key `next_spider` is absent. */
  datatype ComposerMeta = ComposerMeta(callback: Callback, nextSpider: Option<nat>)

  const EmptyComposerMeta: ComposerMeta := ComposerMeta(NoCallback, None)

  class Request {
    const url: string
    var callback: Callback
    /** `meta['composer']`, `None` while the key is absent. */
    var composer: Option<ComposerMeta>
    /** `meta['spiderid']`, `None` while the key is absent. */
    var spiderid: Option<string>

    constructor(url: string, callback: Callback, composer: Option<ComposerMeta>)
      ensures this.url == url && this.callback == callback
      ensures this.composer == composer && this.spiderid == None
    {
      this.url := url;
      this.callback := callback;
      this.composer := composer;
      this.spiderid := None;
    }
  }

  class Response {
    const url: string
    /** `response.request`; `response.meta` is `response.request.meta`. */
    const request: Request

    constructor(url: string, request: Request)
      ensures this.url == url && this.request == request
    {
      this.url := url;
      this.request := request;
    }
  }
}
