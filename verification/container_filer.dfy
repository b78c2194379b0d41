/** The ContainerFiler interface (container_filer.go) seen from the sync
    engine: the calls it can receive, and a filer that records every call it
    receives and answers it with a fixed reply per call. */
module ContainerFiler {
  import opened GoStd

  /** One call on the remote transport. `source` names the local file whose
      open reader is handed over; `length` and `permissions` come from its
      os.Stat. */
  datatype FilerCall =
    | CopyRemoteFolder(sourceDir: string, targetDir: string)
    | CopyContent(source: string, length: int, remotePath: string, permissions: nat)
    | CreateFolders(remotePath: string, dir: string)
    | Delete(remotePath: string)
    | Rename(srcRmtPath: string, trtRmtPath: string)

  class RecordingFiler {
    /** Every call received so far, oldest first. */
    var calls: seq<FilerCall>
    /** What the remote answers to each call. */
    const reply: FilerCall -> Status

    constructor (reply: FilerCall -> Status)
      ensures calls == [] && this.reply == reply
    {
      calls := [];
      this.reply := reply;
    }

    method Call(c: FilerCall) returns (status: Status)
      modifies this
      ensures calls == old(calls) + [c]
      ensures status == reply(c)
    {
      calls := calls + [c];
      status := reply(c);
    }
  }
}
