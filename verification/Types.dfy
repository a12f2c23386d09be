/** The enumerations and messages shared by every component
    (include/c_s_iface.h, include/state.h, include/replication_util.h). */
module Types {

  datatype Option<+T> = None | Some(value: T)

  /** rep_mode_t */
  datatype Mode = UnknownRep | ActiveRep | PassiveRep

  /** server_states_t */
  datatype State =
    | UnknownState
    | Quiesce
    | ActiveRunning
    | ActiveRecover
    | PassivePrimary
    | PassiveBackup
    | PassivePreprimary

  /** bsvr_ctx: where a backup server listens. */
  datatype Peer = Peer(id: int, ip: string, port: int)

  /** rep_mgr_msg_t as the server holds it after parsing. */
  datatype RepMgrMsg = RepMgrMsg(mode: Mode, state: State, freq: int, peer1: Peer, peer2: Peer)

  // REP_MGR_MSG_INITIALISER: what a message that carries no checkpoint fields leaves in place.
  const DEFAULT_FREQ := 10
  const DEFAULT_PEER1 := Peer(-1, "", 0)
  const DEFAULT_PEER2 := Peer(0, "", 0)

  function PlainMsg(mode: Mode, state: State): RepMgrMsg {
    RepMgrMsg(mode, state, DEFAULT_FREQ, DEFAULT_PEER1, DEFAULT_PEER2)
  }

  /** Task status; insertion never writes the field, so a fresh entry holds no meaningful value. */
  datatype Status = Unset | Set(code: int)

  /** client_request_t: the message type with the fields that type uses. The key of an
      addition is the 64-bit digest the server derives from the request. */
  datatype Request =
    | MsgInvalid
    | MsgAdd(key: nat, task: string)
    | MsgModify(key: nat, status: Status)
    | MsgGetAll
    | MsgRemove(key: nat)
    | MsgHeartbeat
    | MsgChkPt(image: string)
    | MsgRepMgr(msg: RepMgrMsg)
    | MsgSendChkpt
    | MsgUnknown
}
