/** The host extension runtime as the backend sees it: a flat key/value
    storage and a log of the calls the backend makes into services whose
    internals are not part of this model (file-system registry, logging
    switch, broadcast to page scripts, the remote replicated copy, the
    context menu). */
module Extension {
  import opened Json

  /** One outbound call into a host service, with the argument it carried. */
  datatype Effect =
    | FsSetInfo(info: Value)                     // ext.fileSystem.setInfo
    | SetLogMode(mode: Value)                    // ext.setLogMode
    | Broadcast(items: map<string, Value>)       // ext.broadcast of an `update-storage` message
    | PushSync(items: map<string, Value>)        // the remote copy's `set`
    | ClearSync                                  // the remote copy's `clear`
    | ClearCredentials                           // ext.fileSystem.clearCredentials
    | BuildContextMenu                           // contextMenu.build
    | LogBootError                               // the boot chain's error log line
    | FetchSync(names: seq<string>)              // the remote copy's `get` of these keys

  /** The storage (`ext.storage`) and the record of outbound calls. A key
      mapped to `undefined` is a key absent from `storage`. */
  class Ext {
    var storage: map<string, Value>
    var effects: seq<Effect>

    constructor(initial: map<string, Value>)
      ensures storage == initial && effects == []
    {
      storage := initial;
      effects := [];
    }
  }
}
