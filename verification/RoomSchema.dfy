/** ROOM_QUERY_SCHEMA: the tables and columns a room query may read, and for each table the
    column that says which room a row belongs to. */
module RoomSchema {
  import opened SqlAst
  import opened Options

  const TABLES: set<string> := {
    "rooms", "room_members", "users", "messages", "file_records", "agent_configs",
    "agent_message_inbox", "moderation_records", "removal_requests", "agent_chunks",
    "room_agent_bindings"}

  function ScopeColumn(table: string): Option<string> {
    if table == "users" then None else if table == "rooms" then Some("id") else Some("room_id")
  }

  function Columns(table: string): set<string> {
    if table == "rooms" then
      {"id", "type", "name", "creator_id", "agent_enabled", "moderation_enabled", "status",
       "last_active_at", "bot_user_id", "created_at", "updated_at", "deleted_at"}
    else if table == "room_members" then
      {"id", "room_id", "user_id", "role", "joined_at", "deleted_at"}
    else if table == "users" then
      {"id", "username", "avatar", "role", "is_bot", "status", "last_login_at", "last_active_at",
       "created_at", "updated_at", "deleted_at"}
    else if table == "messages" then
      {"id", "room_id", "sender_id", "client_msg_id", "type", "content", "created_at", "deleted_at"}
    else if table == "file_records" then
      {"id", "object_key", "original_name", "sha256", "size", "uploader_id", "room_id", "backend",
       "status", "message_id", "created_at", "updated_at"}
    else if table == "agent_configs" then
      {"id", "room_id", "system_prompt", "trigger_mode", "trigger_words", "max_history", "temperature",
       "model_name", "rag_enabled", "top_k", "similarity_thold", "rerank_enabled", "max_chunk_tokens",
       "topic_chunk_min_msgs", "topic_chunk_model", "created_at", "updated_at", "deleted_at"}
    else if table == "agent_message_inbox" then
      {"id", "event_id", "topic", "partition_id", "kafka_offset", "room_id", "message_id", "sender_id",
       "sender_type", "content", "message_time", "status", "error_message", "created_at", "updated_at"}
    else if table == "moderation_records" then
      {"id", "inbox_id", "room_id", "message_id", "sender_id", "status", "rule_code", "reason",
       "evidence", "confidence", "created_at"}
    else if table == "removal_requests" then
      {"id", "room_id", "target_user_id", "moderation_record_id", "reason", "evidence", "status",
       "reviewed_by_user_id", "reviewed_at", "created_at", "updated_at", "deleted_at"}
    else if table == "agent_chunks" then
      {"id", "room_id", "binding_id", "topic_name", "content", "message_ids", "start_time", "end_time",
       "qdrant_point_id", "created_at"}
    else if table == "room_agent_bindings" then
      {"id", "room_id", "bot_id", "legacy_bot_user_id", "enabled", "priority", "created_at",
       "updated_at", "deleted_at"}
    else {}
  }

  const ALLOWED_FUNCTIONS: set<string> := {
    "AVG", "COALESCE", "COUNT", "DATE", "DATE_FORMAT", "DAY", "HOUR", "LENGTH", "LOWER", "MAX",
    "MIN", "MONTH", "ROUND", "SUM", "UPPER", "YEAR"}
}
