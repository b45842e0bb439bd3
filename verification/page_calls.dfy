/** What the calls the browser page starts meet on the two services: a
    download reaches the gateway past its id check, and a deletion reaches
    the catalog and the object store under the same identifier. */
module PageCalls {
  import opened Wrappers
  import opened Text
  import opened Http
  import opened Aead
  import opened Backend
  import opened Catalog
  import StorageHttp
  import StoreComponent
  import FileControllers

  /** A download the page starts is never refused for a missing id. With a
      key the page's own check accepts, the gateway fetches exactly that
      object; with a non-empty key the check rejects, the gateway answers a
      bare 500 without contacting the backend. */
  lemma StartedDownloadReachesBackend(cfg: Config, c: Cipher, name: string, identifier: string,
                                      secretKey: string, send: Transport)
    requires StoreComponent.DownloadFile(name, identifier, secretKey) != []
    ensures StorageHttp.DownloadFile(cfg, c, identifier, secretKey, send).outcome != Returned(StorageHttp.Rejection(StorageHttp.EmptyId))
    ensures StoreComponent.IsValidKey(secretKey)
            ==> StorageHttp.DownloadFile(cfg, c, identifier, secretKey, send).sent == [GetRequest(cfg, identifier)]
    ensures !StoreComponent.IsValidKey(secretKey) && secretKey != ""
            ==> StorageHttp.DownloadFile(cfg, c, identifier, secretKey, send) == Exchange(Returned(BareError()), [])
  {
    StoreComponent.ValidKeyIsServerKey(secretKey);
  }

  /** Deleting from the page sends the object store a DELETE for the row's
      identifier, and, when that identifier is not blank, makes the catalog
      delete the row with the same identifier. */
  lemma DeleteReachesBothServices(db: Database, cfg: Config, identifier: string, send: Transport)
    requires StoreComponent.DeleteFile(identifier) != []
    ensures var calls := StoreComponent.DeleteFile(identifier);
            && StorageHttp.DeleteFile(cfg, calls[1].identifier, send).sent == [DeleteRequest(cfg, identifier)]
            && (!IsBlank(identifier) ==> RemoveFileByIdentifier(identifier) in FileControllers.Remove(db, calls[0].identifier).calls)
  {
  }
}
