/** The client options dictionary, one optional field per key (an absent key is `None`). */
module ClientOptions {
  import opened Wrappers

  /**
   * The authentication object stored under "auth". The two LocalAuth variants keep the
   * `_dirPath` and `_sessionId` their constructors derived; `NotBaseAuth` is any other object.
   */
  datatype AuthKind =
    | NoAuth
    | LocalAuth(dirPath: string, sessionId: string)
    | LegacyLocalAuth(dirPath: string, sessionId: string)
    | NotBaseAuth

  datatype Options = Options(
    auth: Option<AuthKind>,
    headless: Option<bool>,
    webUrl: Option<string>,
    qrDataSelector: Option<string>,
    loadedSelector: Option<string>)
}
