/** The optional values the runtimes pass around in place of nil pointers and nil maps. */
module Options {
  datatype Option<+T> = None | Some(value: T) {
    function GetOr(default: T): T { if Some? then value else default }
  }
}
