/** The services outside the driver, as objects that its methods change. */
module Cluster {
  import opened Records
  import opened Lifecycle

  /** The API server's records, the Ceph images, and the nodes' device connections and mounts. */
  class Services {
    var store: Store
    var images: map<ImageId, Image>
    var links: set<Attachment>
    var mounts: set<Attachment>

    constructor ()
      ensures store == EMPTY_STORE && images == map[] && links == {} && mounts == {}
    {
      store, images, links, mounts := EMPTY_STORE, map[], {}, {};
    }
  }
}
