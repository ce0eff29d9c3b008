/** A value that may be missing. */
module Options {
  datatype Option<+T> = None | Some(value: T)
}

/** Values shared by all parts of the MQTT client: bytes, control types, error codes. */
module MqttTypes {

  type byte = x: int | 0 <= x < 256
  type bytes = seq<byte>
  type uint16 = x: int | 0 <= x < 0x1_0000

  // Control packet types.
  const CONNECT := 1
  const CONNACK := 2
  const PUBLISH := 3
  const PUBACK := 4
  const PUBREC := 5
  const PUBREL := 6
  const PUBCOMP := 7
  const SUBSCRIBE := 8
  const SUBACK := 9
  const UNSUBSCRIBE := 10
  const UNSUBACK := 11
  const PINGREQ := 12
  const PINGRESP := 13
  const DISCONNECT := 14

  // Return codes: one success value, and errors counted up from the smallest 32-bit integer.
  const OK := 1
  const ERROR_UNKNOWN := -0x8000_0000
  const ERROR_NULLPTR := ERROR_UNKNOWN + 1
  const ERROR_CONTROL_FORBIDDEN_TYPE := ERROR_UNKNOWN + 2
  const ERROR_CONTROL_INVALID_FLAGS := ERROR_UNKNOWN + 3
  const ERROR_CONNECT_CLIENT_ID_REFUSED := ERROR_UNKNOWN + 5
  const ERROR_CONNECT_NULL_WILL_MESSAGE := ERROR_UNKNOWN + 6
  const ERROR_CONNECT_FORBIDDEN_WILL_QOS := ERROR_UNKNOWN + 7
  const ERROR_CONNACK_FORBIDDEN_FLAGS := ERROR_UNKNOWN + 8
  const ERROR_CONNACK_FORBIDDEN_CODE := ERROR_UNKNOWN + 9
  const ERROR_PUBLISH_FORBIDDEN_QOS := ERROR_UNKNOWN + 10
  const ERROR_SUBSCRIBE_TOO_MANY_TOPICS := ERROR_UNKNOWN + 11
  const ERROR_MALFORMED_RESPONSE := ERROR_UNKNOWN + 12
  const ERROR_UNSUBSCRIBE_TOO_MANY_TOPICS := ERROR_UNKNOWN + 13
  const ERROR_RESPONSE_INVALID_CONTROL_TYPE := ERROR_UNKNOWN + 14
  const ERROR_CONNECT_NOT_CALLED := ERROR_UNKNOWN + 15
  const ERROR_SEND_BUFFER_IS_FULL := ERROR_UNKNOWN + 16
  const ERROR_SOCKET_ERROR := ERROR_UNKNOWN + 17
  const ERROR_MALFORMED_REQUEST := ERROR_UNKNOWN + 18
  const ERROR_RECV_BUFFER_TOO_SMALL := ERROR_UNKNOWN + 19
  const ERROR_ACK_OF_UNKNOWN := ERROR_UNKNOWN + 20
  const ERROR_CONNECTION_REFUSED := ERROR_UNKNOWN + 22
  const ERROR_SUBSCRIBE_FAILED := ERROR_UNKNOWN + 23
  const ERROR_INVALID_REMAINING_LENGTH := ERROR_UNKNOWN + 26
  const ERROR_CLEAN_SESSION_IS_REQUIRED := ERROR_UNKNOWN + 27
}
